/** The per-table reader/writer lock (pokerapp/lock_manager.py, `_RWLockState`, `table_read_lock` and
    `table_write_lock`), as a protocol over any number of tasks. */
module ReadWriteLock {
  import opened Basics

  type Task = nat

  /** The counters of `_RWLockState`; `writeLocked` is `write_lock.locked()` and `event` says whether
      `no_writer_event` is set. */
  datatype Vars = Vars(readers: int, waiting: int, active: bool, event: bool, writeLocked: bool)

  const FRESH := Vars(0, 0, false, true, false)

  // The critical sections under `reader_lock`, one function each.

  predicate ShouldWait(priority: bool, v: Vars) {
    v.writeLocked || v.active || (priority && v.waiting > 0)
  }

  function EnterRead(v: Vars): Vars {
    v.(readers := v.readers + 1, event := v.event || (v.waiting == 0 && !v.writeLocked))
  }

  function LeaveRead(v: Vars): Vars {
    v.(readers := Max0(v.readers - 1), event := v.event || (v.waiting == 0 && !v.writeLocked && !v.active))
  }

  function MarkWaiting(v: Vars): Vars {
    v.(waiting := v.waiting + 1, event := false)
  }

  function UnmarkWaiting(v: Vars): Vars {
    var w := Max0(v.waiting - 1);
    v.(waiting := w, event := v.event || (w == 0 && !v.writeLocked && !v.active))
  }

  function StartWrite(v: Vars): Vars {
    v.(active := true)
  }

  function StopWrite(v: Vars): Vars {
    v.(active := false, event := v.event || (v.waiting == 0 && !v.writeLocked))
  }

  // ---------------------------------------------------------------------------------------------
  // The protocol
  // ---------------------------------------------------------------------------------------------

  /** Where a task stands. "Wants" means: about to take `reader_lock`; "in" means: inside that critical
      section, which runs to its end in one further step. */
  datatype Place =
    | Idle
    | ReadWants | ReadIn | ReadSleeps          // the loop of table_read_lock; asleep on no_writer_event
    | Counted                                  // reader_count raised, body not yet reached
    | Reading                                  // inside the body
    | ReadLeaves | ReadOut
    | Leaked                                   // failed between the count and the body: never uncounted
    | MarkWants | MarkIn
    | Queued                                   // marked, wants write_lock
    | PollWants | PollIn | PollSleeps          // holds write_lock, looks for reader_count == 0
    | Cleared | ActivateIn                     // saw no readers, about to set has_active_writer
    | Writing                                  // inside the body
    | WriteLeaves | WriteOut
    | Unlocks                                  // about to release write_lock
    | UnmarkWants | UnmarkIn

  predicate HoldsReaderLock(at: Place) {
    at.ReadIn? || at.ReadOut? || at.MarkIn? || at.PollIn? || at.ActivateIn? || at.WriteOut? || at.UnmarkIn?
  }

  predicate HoldsWriteLock(at: Place) {
    at.PollWants? || at.PollIn? || at.PollSleeps? || SawNoReaders(at) || at.Unlocks?
  }

  predicate SawNoReaders(at: Place) {
    at.Cleared? || at.ActivateIn? || IsActive(at)
  }

  predicate IsActive(at: Place) {
    at.Writing? || at.WriteLeaves? || at.WriteOut?
  }

  predicate IsCounted(at: Place) {
    at.Counted? || at.Reading? || at.ReadLeaves? || at.ReadOut? || at.Leaked?
  }

  predicate IsMarked(at: Place) {
    at.Queued? || HoldsWriteLock(at) || at.UnmarkWants? || at.UnmarkIn?
  }

  /** What the critical section at `at` makes of the variables, and where it leaves its task. */
  function Section(priority: bool, v: Vars, at: Place): (Vars, Place)
    requires HoldsReaderLock(at)
  {
    match at
    case ReadIn => if ShouldWait(priority, v) then (v, ReadSleeps) else (EnterRead(v), Counted)
    case ReadOut => (LeaveRead(v), Idle)
    case MarkIn => (MarkWaiting(v), Queued)
    case PollIn => (v, if v.readers == 0 then Cleared else PollSleeps)
    case ActivateIn => (StartWrite(v), Writing)
    case WriteOut => (StopWrite(v), Unlocks)
    case UnmarkIn => (UnmarkWaiting(v), Idle)
  }

  /** `_RWLockState`: the bookkeeping object whose fields the critical sections update. */
  class RWLockState {
    var readerCount: int
    var writerWaiting: int
    var hasActiveWriter: bool
    var noWriterEvent: bool
    var writeLock: bool

    function View(): Vars
      reads this
    {
      Vars(readerCount, writerWaiting, hasActiveWriter, noWriterEvent, writeLock)
    }

    constructor ()
      ensures View() == FRESH
    {
      readerCount, writerWaiting, hasActiveWriter, noWriterEvent, writeLock := 0, 0, false, true, false;
    }

    method TryEnterRead(writerPriority: bool) returns (entered: bool)
      modifies this
      ensures entered == !ShouldWait(writerPriority, old(View()))
      ensures View() == if entered then EnterRead(old(View())) else old(View())
    {
      var writerActive := writeLock || hasActiveWriter;
      var writersWaiting := writerWaiting > 0;
      var shouldWait := writerActive || (writerPriority && writersWaiting);
      if !shouldWait {
        readerCount := readerCount + 1;
        if writerWaiting == 0 && !writeLock {
          noWriterEvent := true;
        }
      }
      entered := !shouldWait;
    }

    method ExitRead()
      modifies this
      ensures View() == LeaveRead(old(View()))
    {
      readerCount := if readerCount - 1 > 0 then readerCount - 1 else 0;
      if writerWaiting == 0 && !writeLock && !hasActiveWriter {
        noWriterEvent := true;
      }
    }

    method MarkWriterWaiting()
      modifies this
      ensures View() == MarkWaiting(old(View()))
    {
      writerWaiting := writerWaiting + 1;
      noWriterEvent := false;
    }

    method UnmarkWriterWaiting()
      modifies this
      ensures View() == UnmarkWaiting(old(View()))
    {
      writerWaiting := if writerWaiting - 1 > 0 then writerWaiting - 1 else 0;
      if writerWaiting == 0 && !writeLock && !hasActiveWriter {
        noWriterEvent := true;
      }
    }

    method BeginWrite()
      modifies this
      ensures View() == StartWrite(old(View()))
    {
      hasActiveWriter := true;
    }

    method EndWrite()
      modifies this
      ensures View() == StopWrite(old(View()))
    {
      hasActiveWriter := false;
      if writerWaiting == 0 && !writeLock {
        noWriterEvent := true;
      }
    }

    /** The critical section at which a task stands inside `reader_lock`, run to its end. */
    method RunSection(priority: bool, at: Place) returns (next: Place)
      requires HoldsReaderLock(at)
      modifies this
      ensures (View(), next) == Section(priority, old(View()), at)
    {
      match at
      case ReadIn =>
        var entered := TryEnterRead(priority);
        next := if entered then Counted else ReadSleeps;
      case ReadOut =>
        ExitRead();
        next := Idle;
      case MarkIn =>
        MarkWriterWaiting();
        next := Queued;
      case PollIn =>
        next := if readerCount == 0 then Cleared else PollSleeps;
      case ActivateIn =>
        BeginWrite();
        next := Writing;
      case WriteOut =>
        EndWrite();
        next := Unlocks;
      case UnmarkIn =>
        UnmarkWriterWaiting();
        next := Idle;
    }
  }

  datatype State = State(v: Vars, readerLock: Option<Task>, places: map<Task, Place>)

  const START := State(FRESH, None, map[])

  function At(s: State, t: Task): Place {
    if t in s.places then s.places[t] else Idle
  }

  /** `Go` is the next line of a task's own code. `Read` and `Write` let an idle task call
      `table_read_lock` or `table_write_lock`. `Fail` is a cancellation while asleep or queued, or an
      exception raised before the reader's body is reached. `Wake` ends a sleep that was over before the event was
      cleared again; to allow it at any moment of a sleep only adds runs. */
  datatype Choice = Go | Read | Write | Fail | Wake

  function Move(s: State, t: Task, at: Place): State {
    s.(places := s.places[t := at])
  }

  /** Takes `reader_lock` if it is free. */
  function Enter(s: State, t: Task, at: Place): Option<State> {
    if s.readerLock == None then Some(Move(s, t, at).(readerLock := Some(t))) else None
  }

  /** Ends a critical section: the variables become `v` and `reader_lock` is free again. */
  function Exit(s: State, t: Task, v: Vars, at: Place): Option<State> {
    Some(Move(s, t, at).(v := v, readerLock := None))
  }

  /** One step of task `t`, or nothing when it is blocked. */
  function Step(priority: bool, s: State, t: Task, choice: Choice): Option<State> {
    match choice
    case Go => Advance(priority, s, t)
    case Read => if At(s, t).Idle? then Some(Move(s, t, ReadWants)) else None
    case Write => if At(s, t).Idle? then Some(Move(s, t, MarkWants)) else None
    case Wake => if At(s, t).ReadSleeps? then Some(Move(s, t, ReadWants)) else None
    case Fail =>
      match At(s, t)
      case ReadSleeps => Some(Move(s, t, Idle))
      case Counted => Some(Move(s, t, Leaked))
      case Queued => Some(Move(s, t, UnmarkWants))
      case PollSleeps => Some(Move(s, t, Unlocks))
      case _ => None
  }

  /** The next line of `t`: the critical section it is in, or a move outside of one. */
  function Advance(priority: bool, s: State, t: Task): Option<State> {
    if HoldsReaderLock(At(s, t)) then
      var (v, at) := Section(priority, s.v, At(s, t));
      Exit(s, t, v, at)
    else
      match At(s, t)
      case Idle => None
      case ReadWants => Enter(s, t, ReadIn)
      case ReadSleeps => if s.v.event then Some(Move(s, t, ReadWants)) else None
      case Counted => Some(Move(s, t, Reading))
      case Reading => Some(Move(s, t, ReadLeaves))
      case ReadLeaves => Enter(s, t, ReadOut)
      case Leaked => None
      case MarkWants => Enter(s, t, MarkIn)
      case Queued => if s.v.writeLocked then None else Some(Move(s, t, PollWants).(v := s.v.(writeLocked := true)))
      case PollWants => Enter(s, t, PollIn)
      case PollSleeps => Some(Move(s, t, PollWants))
      case Cleared => Enter(s, t, ActivateIn)
      case Writing => Some(Move(s, t, WriteLeaves))
      case WriteLeaves => Enter(s, t, WriteOut)
      case Unlocks => Some(Move(s, t, UnmarkWants).(v := s.v.(writeLocked := false)))
      case UnmarkWants => Enter(s, t, UnmarkIn)
  }

  /** One task moves at a time. */
  ghost predicate Path(priority: bool, states: seq<State>) {
    && states != []
    && forall i :: 0 <= i < |states| - 1 ==> CanMove(priority, states[i], states[i + 1])
  }

  /** A run starts from the fresh lock. */
  ghost predicate Run(priority: bool, states: seq<State>) {
    Path(priority, states) && states[0] == START
  }

  ghost predicate CanMove(priority: bool, s: State, s': State) {
    exists t: Task, choice :: Step(priority, s, t, choice) == Some(s')
  }

  // ---------------------------------------------------------------------------------------------
  // The invariant
  // ---------------------------------------------------------------------------------------------

  function CountedTasks(s: State): set<Task> {
    set t | t in s.places && IsCounted(s.places[t])
  }

  function MarkedTasks(s: State): set<Task> {
    set t | t in s.places && IsMarked(s.places[t])
  }

  /** At most one task holds each lock, and the fields say which. */
  ghost predicate LocksAgree(s: State) {
    && (forall t: Task :: HoldsReaderLock(At(s, t)) <==> s.readerLock == Some(t))
    && (forall t: Task, u: Task :: HoldsWriteLock(At(s, t)) && HoldsWriteLock(At(s, u)) ==> t == u)
    && (forall t: Task :: HoldsWriteLock(At(s, t)) ==> s.v.writeLocked)
    && (forall t: Task :: IsActive(At(s, t)) ==> s.v.active)
    && (s.v.writeLocked ==> exists t: Task :: HoldsWriteLock(At(s, t)))
    && (s.v.active ==> exists t: Task :: IsActive(At(s, t)))
  }

  /** The counters count, and the event is set exactly when no writer is marked. */
  ghost predicate CountsAgree(s: State) {
    && s.v.readers == |CountedTasks(s)|
    && s.v.waiting == |MarkedTasks(s)|
    && (s.v.event <==> s.v.waiting == 0)
  }

  /** Once a writer has seen `reader_count == 0` there is no reader until it gives up `write_lock`. */
  ghost predicate Excludes(s: State) {
    forall t: Task :: SawNoReaders(At(s, t)) ==> CountedTasks(s) == {}
  }

  ghost predicate Inv(s: State) {
    LocksAgree(s) && CountsAgree(s) && Excludes(s)
  }

  /** What a move does to the two counted sets. */
  lemma MoveChangesSets(s: State, t: Task, at: Place)
    ensures CountedTasks(Move(s, t, at)) == if IsCounted(at) then CountedTasks(s) + {t} else CountedTasks(s) - {t}
    ensures MarkedTasks(Move(s, t, at)) == if IsMarked(at) then MarkedTasks(s) + {t} else MarkedTasks(s) - {t}
    ensures t in CountedTasks(s) <==> IsCounted(At(s, t))
    ensures t in MarkedTasks(s) <==> IsMarked(At(s, t))
  {
  }

  // What a step of `t` from `s` to `s'` may do, told by the roles that `t` takes up and gives up.

  ghost predicate LockEffect(s: State, t: Task, s': State) {
    var a, b := At(s, t), At(s', t);
    && s'.places == s.places[t := b]
    && s'.readerLock == (if HoldsReaderLock(b) then Some(t) else if HoldsReaderLock(a) then None else s.readerLock)
    && (HoldsReaderLock(b) ==> s.readerLock == None)
    && s'.v.writeLocked == (HoldsWriteLock(b) || (s.v.writeLocked && !HoldsWriteLock(a)))
    && (HoldsWriteLock(b) && !HoldsWriteLock(a) ==> !s.v.writeLocked)
    && s'.v.active == (IsActive(b) || (s.v.active && !IsActive(a)))
  }

  ghost predicate ReaderEffect(s: State, t: Task, s': State) {
    var a, b := At(s, t), At(s', t);
    && s'.v.readers ==
       (if IsCounted(b) && !IsCounted(a) then s.v.readers + 1
        else if IsCounted(a) && !IsCounted(b) then Max0(s.v.readers - 1)
        else s.v.readers)
    && (IsCounted(b) && !IsCounted(a) ==> !s.v.writeLocked && !s.v.active)
    && (SawNoReaders(b) && !SawNoReaders(a) ==> s.v.readers == 0)
  }

  ghost predicate WriterEffect(s: State, t: Task, s': State) {
    var a, b := At(s, t), At(s', t);
    && s'.v.waiting ==
       (if IsMarked(b) && !IsMarked(a) then s.v.waiting + 1
        else if IsMarked(a) && !IsMarked(b) then Max0(s.v.waiting - 1)
        else s.v.waiting)
    && (IsMarked(b) && !IsMarked(a) ==> !s'.v.event)
    && (IsMarked(a) && !IsMarked(b) ==>
          && !HoldsWriteLock(a)
          && s'.v.event == (s.v.event || (s'.v.waiting == 0 && !s.v.writeLocked && !s.v.active)))
    && (IsMarked(a) == IsMarked(b) ==> s.v.event ==> s'.v.event)
    && (IsMarked(a) == IsMarked(b) ==> s'.v.event ==> s.v.event || s.v.waiting == 0)
  }

  predicate OnReadSide(at: Place) {
    at.ReadWants? || at.ReadIn? || at.ReadSleeps? || IsCounted(at)
  }

  lemma ReadStepLocks(priority: bool, s: State, t: Task)
    requires LocksAgree(s) && OnReadSide(At(s, t)) && Advance(priority, s, t).Some?
    ensures LockEffect(s, t, Advance(priority, s, t).value)
  {
  }

  lemma ReadStepReaders(priority: bool, s: State, t: Task)
    requires OnReadSide(At(s, t)) && Advance(priority, s, t).Some?
    ensures ReaderEffect(s, t, Advance(priority, s, t).value)
  {
  }

  lemma ReadStepWriters(priority: bool, s: State, t: Task)
    requires OnReadSide(At(s, t)) && Advance(priority, s, t).Some?
    ensures WriterEffect(s, t, Advance(priority, s, t).value)
  {
  }

  lemma WriteStepLocks(priority: bool, s: State, t: Task)
    requires LocksAgree(s) && !OnReadSide(At(s, t)) && Advance(priority, s, t).Some?
    ensures LockEffect(s, t, Advance(priority, s, t).value)
  {
  }

  lemma WriteStepReaders(priority: bool, s: State, t: Task)
    requires !OnReadSide(At(s, t)) && Advance(priority, s, t).Some?
    ensures ReaderEffect(s, t, Advance(priority, s, t).value)
  {
  }

  lemma WriteStepWriters(priority: bool, s: State, t: Task)
    requires !OnReadSide(At(s, t)) && Advance(priority, s, t).Some?
    ensures WriterEffect(s, t, Advance(priority, s, t).value)
  {
  }

  lemma StepHasEffect(priority: bool, s: State, t: Task, choice: Choice)
    requires LocksAgree(s) && Step(priority, s, t, choice).Some?
    ensures var s' := Step(priority, s, t, choice).value;
            LockEffect(s, t, s') && ReaderEffect(s, t, s') && WriterEffect(s, t, s')
  {
    if choice.Go? {
      if OnReadSide(At(s, t)) {
        ReadStepLocks(priority, s, t);
        ReadStepReaders(priority, s, t);
        ReadStepWriters(priority, s, t);
      } else {
        WriteStepLocks(priority, s, t);
        WriteStepReaders(priority, s, t);
        WriteStepWriters(priority, s, t);
      }
    } else {
      CallStepEffect(priority, s, t, choice);
    }
  }

  lemma CallStepEffect(priority: bool, s: State, t: Task, choice: Choice)
    requires LocksAgree(s) && !choice.Go? && Step(priority, s, t, choice).Some?
    ensures var s' := Step(priority, s, t, choice).value;
            LockEffect(s, t, s') && ReaderEffect(s, t, s') && WriterEffect(s, t, s')
  {
  }

  lemma EffectKeepsLocks(s: State, t: Task, s': State)
    requires Inv(s) && LockEffect(s, t, s')
    ensures LocksAgree(s')
  {
    assert forall u: Task :: u != t ==> At(s', u) == At(s, u);
    if s'.v.writeLocked {
      var w: Task :| if s.v.writeLocked then HoldsWriteLock(At(s, w)) else w == t;
      assert HoldsWriteLock(At(s', w));
    }
    if s'.v.active {
      var w: Task :| if s.v.active then IsActive(At(s, w)) else w == t;
      assert HoldsWriteLock(At(s', w));
      assert IsActive(At(s', w));
    }
  }

  /** While `write_lock` is held, or a writer is active, some task is marked. */
  lemma LockedMeansMarked(s: State) returns (w: Task)
    requires LocksAgree(s) && (s.v.writeLocked || s.v.active)
    ensures s.v.writeLocked && w in MarkedTasks(s) && HoldsWriteLock(At(s, w))
  {
    if s.v.active {
      w :| IsActive(At(s, w));
      assert HoldsWriteLock(At(s, w));
    }
    w :| HoldsWriteLock(At(s, w));
  }

  lemma EffectKeepsCounts(s: State, t: Task, s': State)
    requires Inv(s) && LockEffect(s, t, s') && ReaderEffect(s, t, s') && WriterEffect(s, t, s')
    ensures CountsAgree(s')
  {
    SetsFollow(s, t, s');
    ReadersFollow(s, t, s');
    WritersFollow(s, t, s');
    if s.v.writeLocked || s.v.active {
      var w := LockedMeansMarked(s);
      assert IsMarked(At(s, t)) && !IsMarked(At(s', t)) ==> w in MarkedTasks(s');
    }
  }

  lemma SetsFollow(s: State, t: Task, s': State)
    requires LockEffect(s, t, s')
    ensures CountedTasks(s') == if IsCounted(At(s', t)) then CountedTasks(s) + {t} else CountedTasks(s) - {t}
    ensures MarkedTasks(s') == if IsMarked(At(s', t)) then MarkedTasks(s) + {t} else MarkedTasks(s) - {t}
    ensures t in CountedTasks(s) <==> IsCounted(At(s, t))
    ensures t in MarkedTasks(s) <==> IsMarked(At(s, t))
  {
    var b := At(s', t);
    MoveChangesSets(s, t, b);
    assert CountedTasks(s') == CountedTasks(Move(s, t, b));
    assert MarkedTasks(s') == MarkedTasks(Move(s, t, b));
  }

  lemma ReadersFollow(s: State, t: Task, s': State)
    requires Inv(s) && LockEffect(s, t, s') && ReaderEffect(s, t, s')
    ensures s'.v.readers == |CountedTasks(s')|
  {
    SetsFollow(s, t, s');
    if IsCounted(At(s, t)) && !IsCounted(At(s', t)) {
      assert |CountedTasks(s) - {t}| == |CountedTasks(s)| - 1;
    } else {
      assert IsCounted(At(s, t)) || !IsCounted(At(s', t)) ==> CountedTasks(s') == CountedTasks(s);
    }
  }

  lemma WritersFollow(s: State, t: Task, s': State)
    requires Inv(s) && LockEffect(s, t, s') && WriterEffect(s, t, s')
    ensures s'.v.waiting == |MarkedTasks(s')|
  {
    SetsFollow(s, t, s');
    if IsMarked(At(s, t)) && !IsMarked(At(s', t)) {
      assert |MarkedTasks(s) - {t}| == |MarkedTasks(s)| - 1;
    } else {
      assert IsMarked(At(s, t)) || !IsMarked(At(s', t)) ==> MarkedTasks(s') == MarkedTasks(s);
    }
  }

  lemma EffectKeepsExclusion(s: State, t: Task, s': State)
    requires Inv(s) && LockEffect(s, t, s') && ReaderEffect(s, t, s')
    ensures Excludes(s')
  {
    MoveChangesSets(s, t, At(s', t));
    assert CountedTasks(s') == CountedTasks(Move(s, t, At(s', t)));
    forall u: Task | SawNoReaders(At(s', u))
      ensures CountedTasks(s') == {}
    {
      assert u != t ==> At(s', u) == At(s, u);
      assert HoldsWriteLock(At(s', u));
    }
  }

  lemma StepKeepsInv(priority: bool, s: State, t: Task, choice: Choice)
    requires Inv(s) && Step(priority, s, t, choice).Some?
    ensures Inv(Step(priority, s, t, choice).value)
  {
    var s' := Step(priority, s, t, choice).value;
    StepHasEffect(priority, s, t, choice);
    EffectKeepsLocks(s, t, s');
    EffectKeepsCounts(s, t, s');
    EffectKeepsExclusion(s, t, s');
  }

  lemma {:induction false} RunKeepsInv(priority: bool, states: seq<State>)
    requires Run(priority, states)
    ensures forall i :: 0 <= i < |states| ==> Inv(states[i])
  {
    assert CountedTasks(START) == {} && MarkedTasks(START) == {};
    for n := 0 to |states| - 1
      invariant forall i :: 0 <= i <= n ==> Inv(states[i])
    {
      assert CanMove(priority, states[n], states[n + 1]);
      var t: Task, choice :| Step(priority, states[n], t, choice) == Some(states[n + 1]);
      StepKeepsInv(priority, states[n], t, choice);
    }
  }

  // ---------------------------------------------------------------------------------------------
  // What the lock promises
  // ---------------------------------------------------------------------------------------------

  /** In every state of every run a task that writes, or has seen that it may, is the only such task, and
      no task is between raising and lowering `reader_count`. */
  lemma WriterIsAlone(priority: bool, states: seq<State>, i: nat, writer: Task, other: Task)
    requires Run(priority, states) && i < |states|
    requires SawNoReaders(At(states[i], writer)) && other != writer
    ensures !IsCounted(At(states[i], other)) && !HoldsWriteLock(At(states[i], other))
    ensures states[i].v.readers == 0
  {
    RunKeepsInv(priority, states);
    assert other !in CountedTasks(states[i]);
    assert HoldsWriteLock(At(states[i], writer));
  }

  /** The event is set exactly when no writer is marked, so a task is asleep on it only while some writer
      is on its way, and goes on when none is; and a reader that is told to wait really goes to sleep instead of
      spinning. */
  lemma NoLostWakeup(priority: bool, states: seq<State>, i: nat, reader: Task)
    requires Run(priority, states) && i < |states|
    ensures states[i].v.event <==> forall t: Task :: !IsMarked(At(states[i], t))
    ensures At(states[i], reader).ReadSleeps? ==>
              (Advance(priority, states[i], reader).Some? <==> forall t: Task :: !IsMarked(At(states[i], t)))
    ensures ShouldWait(priority, states[i].v) ==> !states[i].v.event
  {
    RunKeepsInv(priority, states);
    var s := states[i];
    if s.v.event {
      forall t: Task ensures !IsMarked(At(s, t)) {
        assert t !in MarkedTasks(s);
      }
    } else {
      var t :| t in MarkedTasks(s);
      assert IsMarked(At(s, t));
    }
    if s.v.writeLocked {
      var w: Task :| HoldsWriteLock(At(s, w));
      assert w in MarkedTasks(s);
    }
    if s.v.active {
      var w: Task :| IsActive(At(s, w));
      assert w in MarkedTasks(s);
    }
  }

  /** Neither `max(0, ...)` ever cuts anything off: the counters only ever drop from a positive value. */
  lemma ClampsNeverBite(priority: bool, states: seq<State>, i: nat, t: Task)
    requires Run(priority, states) && i < |states|
    ensures At(states[i], t).ReadOut? ==> LeaveRead(states[i].v).readers == states[i].v.readers - 1
    ensures At(states[i], t).UnmarkIn? ==> UnmarkWaiting(states[i].v).waiting == states[i].v.waiting - 1
  {
    RunKeepsInv(priority, states);
    if At(states[i], t).ReadOut? {
      assert t in CountedTasks(states[i]);
    }
    if At(states[i], t).UnmarkIn? {
      assert t in MarkedTasks(states[i]);
    }
  }

  lemma OnlyAllowedReadersAreCounted(priority: bool, s: State, s': State)
    requires CanMove(priority, s, s') && 0 <= s.v.readers < s'.v.readers
    ensures !ShouldWait(priority, s.v)
  {
  }

  /** With writer priority no reader overtakes: `reader_count` never rises while a writer is marked. */
  lemma ReadersDoNotOvertake(states: seq<State>, i: nat, writer: Task)
    requires Run(true, states) && i + 1 < |states|
    requires IsMarked(At(states[i], writer))
    ensures states[i + 1].v.readers <= states[i].v.readers
  {
    RunKeepsInv(true, states);
    assert writer in MarkedTasks(states[i]);
    assert CanMove(true, states[i], states[i + 1]);
    if states[i + 1].v.readers > states[i].v.readers {
      OnlyAllowedReadersAreCounted(true, states[i], states[i + 1]);
    }
  }

  /** The protocol never jams: while some task is under way, some task that is under way can take its
      next step (a task inside the locked body counts as able to leave it). */
  lemma SomeoneCanMove(priority: bool, states: seq<State>, i: nat, t: Task) returns (mover: Task)
    requires Run(priority, states) && i < |states|
    requires !At(states[i], t).Idle? && !At(states[i], t).Leaked?
    ensures !At(states[i], mover).Idle? && Step(priority, states[i], mover, Go).Some?
  {
    RunKeepsInv(priority, states);
    var s := states[i];
    mover := t;
    if s.readerLock.Some? {
      mover := s.readerLock.value;
    } else if Advance(priority, s, t).None? {
      if At(s, t).ReadSleeps? {
        var w :| w in MarkedTasks(s);
        mover := w;
      }
      if Advance(priority, s, mover).None? {
        var h: Task :| HoldsWriteLock(At(s, h));
        mover := h;
      }
    }
  }

  lemma {:induction false} LeakIsPermanent(priority: bool, states: seq<State>, i: nat, j: nat, reader: Task)
    requires Path(priority, states) && i <= j < |states|
    requires At(states[i], reader).Leaked?
    ensures At(states[j], reader).Leaked?
  {
    if i < j {
      LeakIsPermanent(priority, states, i, j - 1, reader);
      assert CanMove(priority, states[j - 1], states[j - 1 + 1]);
      StepKeepsLeak(priority, states[j - 1], states[j], reader);
    }
  }

  lemma StepKeepsLeak(priority: bool, s: State, s': State, reader: Task)
    requires CanMove(priority, s, s') && At(s, reader).Leaked?
    ensures At(s', reader).Leaked?
  {
  }

  /** A reader that fails after it was counted and before its body stays counted for ever: from then on
      no writer gets past its polling loop. */
  lemma LeakedReaderStarvesWriters(priority: bool, states: seq<State>, i: nat, j: nat, reader: Task, writer: Task)
    requires Run(priority, states) && i <= j < |states|
    requires At(states[i], reader).Leaked?
    ensures states[j].v.readers > 0
    ensures !SawNoReaders(At(states[j], writer))
  {
    RunKeepsInv(priority, states);
    LeakIsPermanent(priority, states, i, j, reader);
    assert reader in CountedTasks(states[j]);
  }

  // ---------------------------------------------------------------------------------------------
  // Everybody can finish, unless a reader leaked
  // ---------------------------------------------------------------------------------------------

  lemma Join(priority: bool, a: seq<State>, b: seq<State>)
    requires Path(priority, a) && Path(priority, b) && a[|a| - 1] == b[0]
    ensures Path(priority, a + b[1..])
    ensures (a + b[1..])[0] == a[0] && (a + b[1..])[|a + b[1..]| - 1] == b[|b| - 1]
  {
    var c := a + b[1..];
    forall i | 0 <= i < |c| - 1 ensures CanMove(priority, c[i], c[i + 1]) {
      if i >= |a| - 1 {
        assert c[i] == b[i - (|a| - 1)] && c[i + 1] == b[i - (|a| - 1) + 1];
      }
    }
  }

  lemma OneStep(priority: bool, s: State, t: Task)
    requires Advance(priority, s, t).Some?
    ensures Path(priority, [s, Advance(priority, s, t).value])
  {
    assert Step(priority, s, t, Go) == Some(Advance(priority, s, t).value);
  }

  ghost predicate AllIdle(s: State) {
    forall t: Task :: At(s, t).Idle?
  }

  ghost predicate NobodyLeaked(s: State) {
    forall t: Task :: !At(s, t).Leaked?
  }

  /** Between critical sections, and in a place from which `t` gets through by its own steps: as a counted reader; as a
      reader to be, when no writer is marked; as a writer, when no reader is counted and nobody else has the lock. */
  ghost predicate Free(s: State, t: Task) {
    && Inv(s) && s.readerLock == None
    && match At(s, t)
       case Counted => true
       case Reading => true
       case ReadLeaves => true
       case ReadWants => MarkedTasks(s) == {}
       case ReadSleeps => MarkedTasks(s) == {}
       case Idle => false
       case Leaked => false
       case _ => CountedTasks(s) == {} && forall u: Task :: u != t ==> !HoldsWriteLock(At(s, u))
  }

  /** How many lines are ahead of a task on its way through. */
  function Ahead(at: Place): nat {
    match at
    case MarkWants => 8
    case Queued => 7
    case PollSleeps => 7
    case PollWants => 6
    case Cleared => 5
    case Writing => 4
    case WriteLeaves => 3
    case Unlocks => 2
    case UnmarkWants => 1
    case ReadSleeps => 5
    case ReadWants => 4
    case Counted => 3
    case Reading => 2
    case ReadLeaves => 1
    case _ => 0
  }

  /** `s'` is a state between critical sections that differs in the place of `t`. */
  ghost predicate Moved(s: State, t: Task, s': State) {
    Inv(s') && s'.readerLock == None && s'.places == s.places[t := At(s', t)]
  }

  lemma NobodyMarked(priority: bool, s: State)
    requires Inv(s) && MarkedTasks(s) == {}
    ensures s.v.event && !ShouldWait(priority, s.v)
  {
    if s.v.writeLocked || s.v.active {
      var w := LockedMeansMarked(s);
    }
  }

  lemma LockIsFree(s: State, t: Task)
    requires Free(s, t) && At(s, t).Queued?
    ensures !s.v.writeLocked
  {
    if s.v.writeLocked {
      var w := LockedMeansMarked(s);
    }
  }

  /** The next line of a free task, together with the critical section it may open. */
  function Onward(priority: bool, s: State, t: Task): State
    requires Advance(priority, s, t).Some?
  {
    var s1 := Advance(priority, s, t).value;
    if HoldsReaderLock(At(s1, t)) then Advance(priority, s1, t).value else s1
  }

  lemma FreeCanAdvance(priority: bool, s: State, t: Task)
    requires Free(s, t)
    ensures Advance(priority, s, t).Some?
  {
    PlacesOfFree(s, t);
    if At(s, t).ReadWants? || At(s, t).ReadSleeps? {
      NobodyMarked(priority, s);
    }
    if At(s, t).Queued? {
      LockIsFree(s, t);
    }
  }

  lemma OnwardReader(priority: bool, s: State, t: Task)
    requires Free(s, t) && ReaderPlace(At(s, t)) && Advance(priority, s, t).Some?
    ensures var s' := Onward(priority, s, t);
            && s'.places == s.places[t := At(s', t)] && s'.readerLock == None
            && Ahead(At(s', t)) == Ahead(At(s, t)) - 1 && (ReaderPlace(At(s', t)) || At(s', t).Idle?)
  {
    if At(s, t).ReadWants? {
      NobodyMarked(priority, s);
    }
  }

  lemma OnwardWriterAlone(priority: bool, s: State, t: Task)
    requires Free(s, t) && WriterPlace(At(s, t)) && Advance(priority, s, t).Some?
    requires !HoldsReaderLock(At(Advance(priority, s, t).value, t))
    ensures var s' := Advance(priority, s, t).value;
            && s'.places == s.places[t := At(s', t)] && s'.readerLock == None
            && Ahead(At(s', t)) == Ahead(At(s, t)) - 1 && (WriterPlace(At(s', t)) || At(s', t).Idle?)
  {
  }

  lemma OnwardWriter(priority: bool, s: State, t: Task)
    requires Free(s, t) && WriterPlace(At(s, t)) && Advance(priority, s, t).Some?
    ensures var s' := Onward(priority, s, t);
            && s'.places == s.places[t := At(s', t)] && s'.readerLock == None
            && Ahead(At(s', t)) == Ahead(At(s, t)) - 1 && (WriterPlace(At(s', t)) || At(s', t).Idle?)
  {
    if !HoldsReaderLock(At(Advance(priority, s, t).value, t)) {
      OnwardWriterAlone(priority, s, t);
    } else if At(s, t).PollWants? {
      assert s.v.readers == 0;
    }
  }

  lemma OnwardPath(priority: bool, s: State, t: Task) returns (path: seq<State>)
    requires Inv(s) && Advance(priority, s, t).Some?
    ensures Path(priority, path) && path[0] == s
    ensures path[|path| - 1] == Onward(priority, s, t) && Inv(Onward(priority, s, t))
  {
    var s1, s' := Advance(priority, s, t).value, Onward(priority, s, t);
    StepKeepsInv(priority, s, t, Go);
    OneStep(priority, s, t);
    path := [s, s1];
    if HoldsReaderLock(At(s1, t)) {
      StepKeepsInv(priority, s1, t, Go);
      OneStep(priority, s1, t);
      Join(priority, path, [s1, s']);
      path := path + [s1, s'][1..];
    }
  }

  lemma NextLine(priority: bool, s: State, t: Task) returns (path: seq<State>)
    requires Free(s, t)
    ensures Path(priority, path) && path[0] == s
    ensures var s' := path[|path| - 1];
            && Moved(s, t, s')
            && Ahead(At(s', t)) == Ahead(At(s, t)) - 1 && (At(s', t).Idle? || Free(s', t))
            && (At(s', t).Idle? || (WriterPlace(At(s, t)) <==> WriterPlace(At(s', t))))
  {
    PlacesOfFree(s, t);
    FreeCanAdvance(priority, s, t);
    path := OnwardPath(priority, s, t);
    var s' := Onward(priority, s, t);
    if ReaderPlace(At(s, t)) {
      OnwardReader(priority, s, t);
      if !At(s', t).Idle? {
        ReaderStaysFree(s, t, s');
      }
    } else {
      OnwardWriter(priority, s, t);
      if !At(s', t).Idle? {
        WriterStaysFree(s, t, s');
      }
    }
  }

  lemma MovedSets(s: State, t: Task, s': State)
    requires Moved(s, t, s')
    ensures CountedTasks(s') == if IsCounted(At(s', t)) then CountedTasks(s) + {t} else CountedTasks(s) - {t}
    ensures MarkedTasks(s') == if IsMarked(At(s', t)) then MarkedTasks(s) + {t} else MarkedTasks(s) - {t}
    ensures forall u: Task :: u != t ==> At(s', u) == At(s, u)
  {
    MoveChangesSets(s, t, At(s', t));
    assert CountedTasks(s') == CountedTasks(Move(s, t, At(s', t)));
    assert MarkedTasks(s') == MarkedTasks(Move(s, t, At(s', t)));
  }

  /** On the way of a reader, and of a writer, outside of critical sections. */
  predicate ReaderPlace(at: Place) {
    at in {ReadSleeps, ReadWants, Counted, Reading, ReadLeaves}
  }

  predicate WriterPlace(at: Place) {
    at in {MarkWants, Queued, PollSleeps, PollWants, Cleared, Writing, WriteLeaves, Unlocks, UnmarkWants}
  }

  lemma ReaderStaysFree(s: State, t: Task, s': State)
    requires Free(s, t) && Moved(s, t, s') && ReaderPlace(At(s, t)) && ReaderPlace(At(s', t))
    requires Ahead(At(s', t)) == Ahead(At(s, t)) - 1
    ensures Free(s', t)
  {
    MovedSets(s, t, s');
  }

  lemma WriterStaysFree(s: State, t: Task, s': State)
    requires Free(s, t) && Moved(s, t, s') && WriterPlace(At(s, t)) && WriterPlace(At(s', t))
    ensures Free(s', t)
  {
    MovedSets(s, t, s');
    assert CountedTasks(s') == {};
  }

  lemma PlacesOfFree(s: State, t: Task)
    requires Free(s, t)
    ensures ReaderPlace(At(s, t)) != WriterPlace(At(s, t))
  {
    assert !HoldsReaderLock(At(s, t));
  }

  /** A free task gets through to the end, or as far as its body. */
  lemma {:induction false} GetsThrough(priority: bool, s: State, t: Task, goal: Place) returns (path: seq<State>)
    requires Free(s, t) && Ahead(At(s, t)) > Ahead(goal)
    requires goal.Idle? || (goal.Reading? && ReaderPlace(At(s, t))) || (goal.Writing? && WriterPlace(At(s, t)))
    ensures Path(priority, path) && path[0] == s
    ensures Moved(s, t, path[|path| - 1])
    ensures At(path[|path| - 1], t) == goal
    decreases Ahead(At(s, t))
  {
    path := NextLine(priority, s, t);
    var s' := path[|path| - 1];
    if At(s', t) != goal {
      var rest := GetsThrough(priority, s', t, goal);
      Join(priority, path, rest);
      path := path + rest[1..];
    }
  }

  function Busy(s: State): set<Task> {
    set t | t in s.places && s.places[t] != Idle
  }

  lemma OneBusyLess(s: State, t: Task, s': State)
    requires Moved(s, t, s') && At(s', t).Idle? && t in Busy(s)
    ensures Busy(s') == Busy(s) - {t} && |Busy(s')| < |Busy(s)|
  {
  }

  lemma OthersStay(s: State, t: Task, s': State, u: Task)
    requires Moved(s, t, s') && At(s', t).Idle? && NobodyLeaked(s) && u != t
    ensures NobodyLeaked(s') && At(s', u) == At(s, u)
  {
    assert forall x: Task :: x != t ==> At(s', x) == At(s, x);
  }

  /** Somebody who is free to go: the counted readers first, then the writer with the lock, then the other marked ones,
      then who is about to be marked, and then the readers to be. */
  lemma SomeoneIsFree(s: State) returns (t: Task)
    requires Inv(s) && s.readerLock == None && NobodyLeaked(s) && Busy(s) != {}
    ensures Free(s, t) && t in Busy(s)
  {
    if CountedTasks(s) != {} {
      t :| t in CountedTasks(s);
    } else if s.v.writeLocked {
      t :| HoldsWriteLock(At(s, t));
    } else if MarkedTasks(s) != {} {
      t :| t in MarkedTasks(s);
    } else if w :| w in Busy(s) && At(s, w).MarkWants? {
      t := w;
    } else {
      t :| t in Busy(s);
      assert !IsCounted(At(s, t)) by {
        assert t !in CountedTasks(s);
      }
      assert !IsMarked(At(s, t)) by {
        assert t !in MarkedTasks(s);
      }
    }
  }

  lemma {:induction false} EverybodyFinishes(priority: bool, s: State) returns (path: seq<State>)
    requires Inv(s) && s.readerLock == None && NobodyLeaked(s)
    ensures Path(priority, path) && path[0] == s && AllIdle(path[|path| - 1])
    decreases |Busy(s)|
  {
    path := [s];
    if Busy(s) != {} {
      var t := SomeoneIsFree(s);
      path := GetsThrough(priority, s, t, Idle);
      var s' := path[|path| - 1];
      OneBusyLess(s, t, s');
      OthersStay(s, t, s', t + 1);
      var rest := EverybodyFinishes(priority, s');
      Join(priority, path, rest);
      path := path + rest[1..];
    } else {
      forall t: Task ensures At(s, t).Idle? {
        assert t !in Busy(s);
      }
    }
  }

  /** To the end of the critical section that is under way, if there is one. */
  lemma EndOfSection(priority: bool, s: State) returns (path: seq<State>)
    requires Inv(s)
    ensures Path(priority, path) && path[0] == s
    ensures var s' := path[|path| - 1];
            && Inv(s') && s'.readerLock == None && (NobodyLeaked(s) ==> NobodyLeaked(s'))
            && forall t: Task :: Some(t) != s.readerLock ==> At(s', t) == At(s, t)
    ensures s.readerLock.Some? ==>
              At(path[|path| - 1], s.readerLock.value) == Section(priority, s.v, At(s, s.readerLock.value)).1
  {
    path := [s];
    if s.readerLock.Some? {
      var t := s.readerLock.value;
      OneStep(priority, s, t);
      StepKeepsInv(priority, s, t, Go);
      path := [s, Advance(priority, s, t).value];
    }
  }

  /** From a state of a run everybody can still get through if and only if no reader has leaked. */
  lemma AllCanFinishExactlyWhenNobodyLeaked(priority: bool, states: seq<State>)
    requires Run(priority, states)
    ensures var s := states[|states| - 1];
            (exists path :: Path(priority, path) && path[0] == s && AllIdle(path[|path| - 1])) <==>
              NobodyLeaked(s)
  {
    RunKeepsInv(priority, states);
    var s := states[|states| - 1];
    if NobodyLeaked(s) {
      var path := EndOfSection(priority, s);
      var rest := EverybodyFinishes(priority, path[|path| - 1]);
      Join(priority, path, rest);
    }
    if path :| Path(priority, path) && path[0] == s && AllIdle(path[|path| - 1]) {
      forall t: Task ensures !At(s, t).Leaked? {
        if At(s, t).Leaked? {
          LeakIsPermanent(priority, path, 0, |path| - 1, t);
        }
      }
    }
  }

  /** On the way to write. */
  predicate WaitsToWrite(at: Place) {
    at in {MarkWants, MarkIn, Queued, PollWants, PollIn, PollSleeps, Cleared, ActivateIn}
  }

  lemma SomeoneInTheWay(s: State, t: Task) returns (u: Task)
    requires Inv(s) && s.readerLock == None && NobodyLeaked(s) && WaitsToWrite(At(s, t))
    requires CountedTasks(s) != {} || exists u: Task :: u != t && HoldsWriteLock(At(s, u))
    ensures Free(s, u) && u != t && u in Busy(s)
  {
    if CountedTasks(s) != {} {
      u :| u in CountedTasks(s);
    } else {
      u :| u != t && HoldsWriteLock(At(s, u));
    }
  }

  lemma {:induction false} WriterGetsIn(priority: bool, s: State, t: Task) returns (path: seq<State>)
    requires Inv(s) && s.readerLock == None && NobodyLeaked(s) && WaitsToWrite(At(s, t))
    ensures Path(priority, path) && path[0] == s && At(path[|path| - 1], t).Writing?
    decreases |Busy(s)|
  {
    if CountedTasks(s) == {} && forall u: Task :: u != t ==> !HoldsWriteLock(At(s, u)) {
      path := GetsThrough(priority, s, t, Writing);
    } else {
      var u := SomeoneInTheWay(s, t);
      path := GetsThrough(priority, s, u, Idle);
      var s' := path[|path| - 1];
      OneBusyLess(s, u, s');
      OthersStay(s, u, s', t);
      var rest := WriterGetsIn(priority, s', t);
      Join(priority, path, rest);
      path := path + rest[1..];
    }
  }

  /** An idle task calls. */
  lemma CallsOf(priority: bool, s: State, t: Task, choice: Choice) returns (path: seq<State>)
    requires Inv(s) && At(s, t).Idle? && choice in {Read, Write}
    ensures Path(priority, path) && path[0] == s && Inv(path[|path| - 1])
    ensures path[|path| - 1] == Move(s, t, if choice.Read? then ReadWants else MarkWants)
  {
    StepKeepsInv(priority, s, t, choice);
    path := [s, Step(priority, s, t, choice).value];
    assert CanMove(priority, path[0], path[1]);
  }

  lemma ComesToWrite(priority: bool, s: State, t: Task) returns (path: seq<State>)
    requires Inv(s) && NobodyLeaked(s) && (At(s, t).Idle? || WaitsToWrite(At(s, t)))
    ensures Path(priority, path) && path[0] == s && At(path[|path| - 1], t).Writing?
  {
    path := EndOfSection(priority, s);
    var s' := path[|path| - 1];
    if At(s', t).Idle? {
      var call := CallsOf(priority, s', t, Write);
      Join(priority, path, call);
      path := path + call[1..];
      s' := path[|path| - 1];
    }
    if !At(s', t).Writing? {
      var rest := WriterGetsIn(priority, s', t);
      Join(priority, path, rest);
      path := path + rest[1..];
    }
  }

  /** From a state of a run a task that has not called yet, or waits to write, can still come to write if and only if no
      reader has leaked. */
  lemma WriterCanEnterExactlyWhenNobodyLeaked(priority: bool, states: seq<State>, writer: Task)
    requires Run(priority, states)
    requires At(states[|states| - 1], writer).Idle? || WaitsToWrite(At(states[|states| - 1], writer))
    ensures var s := states[|states| - 1];
            (exists path :: Path(priority, path) && path[0] == s && At(path[|path| - 1], writer).Writing?) <==>
              NobodyLeaked(s)
  {
    RunKeepsInv(priority, states);
    var s := states[|states| - 1];
    if NobodyLeaked(s) {
      var path := ComesToWrite(priority, s, writer);
    }
    if path :| Path(priority, path) && path[0] == s && At(path[|path| - 1], writer).Writing? {
      forall t: Task ensures !At(s, t).Leaked? {
        if At(s, t).Leaked? {
          LeakIsPermanent(priority, path, 0, |path| - 1, t);
          Join(priority, states, path);
          LeakedReaderStarvesWriters(priority, states + path[1..], |states| - 1, |states + path[1..]| - 1, t, writer);
        }
      }
    }
  }

  // ---------------------------------------------------------------------------------------------
  // What a call leads to
  // ---------------------------------------------------------------------------------------------

  /** On the way to read. */
  predicate WaitsToRead(at: Place) {
    at in {ReadWants, ReadIn, ReadSleeps, Counted}
  }

  /** A call to read leads to the reader's body and a call to write to the writer's: unless it fails, no step of the
      caller leads past its body, and nobody else's step moves it. */
  lemma CallsLeadToTheirBody(priority: bool, s: State, t: Task, choice: Choice, other: Task)
    requires Step(priority, s, t, choice).Some? && choice != Fail && other != t
    ensures var s' := Step(priority, s, t, choice).value;
            var a, b := At(s, t), At(s', t);
            && (choice == Read ==> a.Idle? && WaitsToRead(b))
            && (choice == Write ==> a.Idle? && WaitsToWrite(b))
            && (WaitsToRead(a) ==> WaitsToRead(b) || b.Reading?)
            && (WaitsToWrite(a) ==> WaitsToWrite(b) || b.Writing?)
            && At(s', other) == At(s, other)
  {
  }

  /** A reader is held up exactly while some writer holds `write_lock`, or, with priority, while one is marked. */
  lemma ReaderIsHeldUpExactlyWhen(priority: bool, states: seq<State>, i: nat, reader: Task)
    requires Run(priority, states) && i < |states| && At(states[i], reader).ReadIn?
    ensures Advance(priority, states[i], reader).Some?
    ensures var s, s' := states[i], Advance(priority, states[i], reader).value;
            At(s', reader) ==
              if exists w: Task :: HoldsWriteLock(At(s, w)) || (priority && IsMarked(At(s, w))) then ReadSleeps
              else Counted
  {
    RunKeepsInv(priority, states);
    var s := states[i];
    if s.v.waiting > 0 {
      var w :| w in MarkedTasks(s);
      assert IsMarked(At(s, w));
    }
    if w: Task :| IsMarked(At(s, w)) {
      assert w in MarkedTasks(s);
    }
    if w: Task :| IsActive(At(s, w)) {
      assert HoldsWriteLock(At(s, w));
    }
  }

  /** A writer that looks for readers goes on exactly when there is none. */
  lemma WriterPassesExactlyWhen(priority: bool, states: seq<State>, i: nat, writer: Task)
    requires Run(priority, states) && i < |states| && At(states[i], writer).PollIn?
    ensures Advance(priority, states[i], writer).Some?
    ensures var s, s' := states[i], Advance(priority, states[i], writer).value;
            At(s', writer) == if exists t: Task :: IsCounted(At(s, t)) then PollSleeps else Cleared
  {
    RunKeepsInv(priority, states);
    var s := states[i];
    if s.v.readers > 0 {
      var t :| t in CountedTasks(s);
      assert IsCounted(At(s, t));
    }
    if t: Task :| IsCounted(At(s, t)) {
      assert t in CountedTasks(s);
    }
  }

  /** How many lines a marked writer has before it at most when it gives up where it can. */
  function Behind(at: Place): nat {
    match at
    case PollWants => 6
    case Cleared => 5
    case Writing => 4
    case WriteLeaves => 3
    case PollSleeps => 3
    case Unlocks => 2
    case Queued => 2
    case UnmarkWants => 1
    case _ => 0
  }

  lemma GivesUp(priority: bool, s: State, w: Task) returns (path: seq<State>)
    requires Inv(s) && s.readerLock == None && At(s, w) in {Queued, PollSleeps}
    ensures Path(priority, path) && path[0] == s
    ensures var s' := path[|path| - 1];
            Moved(s, w, s') && Behind(At(s', w)) < Behind(At(s, w)) && IsMarked(At(s', w))
  {
    StepKeepsInv(priority, s, w, Fail);
    path := [s, Step(priority, s, w, Fail).value];
    assert CanMove(priority, path[0], path[1]);
  }

  lemma OnwardOut(priority: bool, s: State, w: Task)
    requires s.readerLock == None && IsMarked(At(s, w)) && !HoldsReaderLock(At(s, w))
    requires At(s, w) !in {Queued, PollSleeps}
    ensures Advance(priority, s, w).Some?
    ensures var s' := Onward(priority, s, w);
            && s'.places == s.places[w := At(s', w)] && s'.readerLock == None
            && Behind(At(s', w)) < Behind(At(s, w)) && (At(s', w).Idle? || IsMarked(At(s', w)))
  {
  }

  lemma {:induction false} WriterWithdraws(priority: bool, s: State, w: Task) returns (path: seq<State>)
    requires Inv(s) && s.readerLock == None && IsMarked(At(s, w))
    ensures Path(priority, path) && path[0] == s
    ensures Moved(s, w, path[|path| - 1]) && At(path[|path| - 1], w).Idle?
    decreases Behind(At(s, w))
  {
    if At(s, w) in {Queued, PollSleeps} {
      path := GivesUp(priority, s, w);
    } else {
      OnwardOut(priority, s, w);
      path := OnwardPath(priority, s, w);
    }
    var s' := path[|path| - 1];
    if !At(s', w).Idle? {
      var rest := WriterWithdraws(priority, s', w);
      Join(priority, path, rest);
      path := path + rest[1..];
    }
  }

  lemma {:induction false} WritersWithdraw(priority: bool, s: State, reader: Task) returns (path: seq<State>)
    requires Inv(s) && s.readerLock == None && !IsMarked(At(s, reader))
    ensures Path(priority, path) && path[0] == s
    ensures var s' := path[|path| - 1];
            Inv(s') && s'.readerLock == None && MarkedTasks(s') == {} && At(s', reader) == At(s, reader)
    decreases |MarkedTasks(s)|
  {
    path := [s];
    if MarkedTasks(s) != {} {
      var w :| w in MarkedTasks(s);
      path := WriterWithdraws(priority, s, w);
      var s' := path[|path| - 1];
      MovedSets(s, w, s');
      assert |MarkedTasks(s) - {w}| == |MarkedTasks(s)| - 1;
      var rest := WritersWithdraw(priority, s', reader);
      Join(priority, path, rest);
      path := path + rest[1..];
    }
  }

  lemma ReaderGetsIn(priority: bool, s: State, reader: Task) returns (path: seq<State>)
    requires Inv(s) && s.readerLock == None && At(s, reader) in {ReadWants, ReadSleeps, Counted}
    ensures Path(priority, path) && path[0] == s && At(path[|path| - 1], reader).Reading?
  {
    path := WritersWithdraw(priority, s, reader);
    var rest := GetsThrough(priority, path[|path| - 1], reader, Reading);
    Join(priority, path, rest);
    path := path + rest[1..];
  }

  /** From every state of every run a task that has not called yet, or waits to read, can still come to read, whoever
      has leaked: the writers before it pass or give up. */
  lemma ReaderCanAlwaysEnter(priority: bool, states: seq<State>, reader: Task)
    requires Run(priority, states)
    requires At(states[|states| - 1], reader).Idle? || WaitsToRead(At(states[|states| - 1], reader))
    ensures exists path :: Path(priority, path) && path[0] == states[|states| - 1]
                           && At(path[|path| - 1], reader).Reading?
  {
    RunKeepsInv(priority, states);
    var path := EndOfSection(priority, states[|states| - 1]);
    var s := path[|path| - 1];
    if At(s, reader).Idle? {
      var call := CallsOf(priority, s, reader, Read);
      Join(priority, path, call);
      path := path + call[1..];
    }
    var rest := ReaderGetsIn(priority, path[|path| - 1], reader);
    Join(priority, path, rest);
  }
}
