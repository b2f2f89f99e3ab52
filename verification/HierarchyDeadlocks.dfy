/** When tasks that keep to the lock hierarchy deadlock (pokerapp/lock_manager.py): a table's read and write keys lie at
    the two ends of the hierarchy, but they are the two sides of one lock. */
module HierarchyDeadlocks {
  import opened Basics
  import opened WaitGraph
  import opened LockHierarchy

  /** `u` keeps `t` waiting. A lock of its own is kept by its owner; a reader is kept waiting by the task with the
      table's `write_lock` and, with writer priority, by every marked writer; a writer by the task with `write_lock`,
      and once it has got that, by every counted reader. A task can be in its own way. */
  predicate Blocks(priority: bool, s: State, u: Task, t: Task) {
    t in s.waiting &&
    match s.waiting[t]
    case ForMutex(k) => Mutex(k) in Held(s, u)
    case ForRead(c) => (c in s.writeLock && s.writeLock[c] == u) || (priority && Marked(s, u, c))
    case ForWrite(c) => c in s.writeLock && s.writeLock[c] == u
    case ForReaders(c) => Counted(s, u, c)
  }

  ghost predicate BlockedWithin(priority: bool, s: State, d: set<Task>, t: Task) {
    exists u :: u in d && Blocks(priority, s, u, t)
  }

  /** Nobody in `d` can go on before somebody in `d` does. */
  ghost predicate Stuck(priority: bool, s: State, d: set<Task>) {
    d != {} && forall t {:trigger BlockedWithin(priority, s, d, t)} :: t in d ==> BlockedWithin(priority, s, d, t)
  }

  ghost predicate Deadlocked(priority: bool, s: State) {
    exists d: set<Task> :: Stuck(priority, s, d)
  }

  // ---------------------------------------------------------------------------------------------
  // What blocking and deadlock mean
  // ---------------------------------------------------------------------------------------------

  /** A waiting task can take its next step exactly when nobody blocks it. */
  lemma BlockedExactlyWhenNoStep(priority: bool, s: State, t: Task)
    requires t in s.waiting
    ensures (Next(priority, s, Grant(t)).Some? || Next(priority, s, Seize(t)).Some?) <==>
              forall u: Task :: !Blocks(priority, s, u, t)
  {
    match s.waiting[t]
    case ForMutex(k) =>
      if Owned(s, k) {
        var u :| u in s.held && Mutex(k) in s.held[u];
        assert Blocks(priority, s, u, t);
      }
    case ForRead(c) =>
      if c in s.writeLock {
        assert Blocks(priority, s, s.writeLock[c], t);
      } else if priority && HasMarked(s, c) {
        var u :| Marked(s, u, c);
        assert Blocks(priority, s, u, t);
      }
    case ForWrite(c) =>
      if c in s.writeLock {
        assert Blocks(priority, s, s.writeLock[c], t);
      }
    case ForReaders(c) =>
      if u :| u in s.held && Reads(c) in s.held[u] {
        assert Blocks(priority, s, u, t);
      } else if p :| p in s.leaked && p.1 == c {
        assert p == (p.0, c);
        assert Blocks(priority, s, p.0, t);
      }
  }

  lemma TableBlockingLasts(priority: bool, s: State, e: Event, s': State, u: Task, t: Task)
    requires Next(priority, s, e) == Some(s') && Blocks(priority, s, u, t) && u in s.waiting
    requires !(e.GiveUp? && e.task in {u, t})
    requires !(e.Grant? && e.task in {u, t}) && !(e.Seize? && e.task == t)
    requires s.waiting[t].ForRead? || s.waiting[t].ForWrite?
    ensures Blocks(priority, s', u, t)
  {
  }

  lemma BlockingLasts(priority: bool, s: State, e: Event, s': State, u: Task, t: Task)
    requires Next(priority, s, e) == Some(s') && Blocks(priority, s, u, t) && u in s.waiting
    requires !(e.GiveUp? && e.task in {u, t})
    requires !(e.Grant? && e.task in {u, t}) && !(e.Seize? && e.task == t)
    ensures Blocks(priority, s', u, t)
  {
    if s.waiting[t].ForRead? || s.waiting[t].ForWrite? {
      TableBlockingLasts(priority, s, e, s', u, t);
    }
  }

  lemma BlockedCannotGoOn(priority: bool, s: State, u: Task, t: Task)
    requires Blocks(priority, s, u, t)
    ensures Next(priority, s, Grant(t)) == None && Next(priority, s, Seize(t)) == None
  {
    BlockedExactlyWhenNoStep(priority, s, t);
  }

  lemma BlockedStays(priority: bool, s: State, e: Event, s': State, d: set<Task>, t: Task)
    requires Stuck(priority, s, d) && Next(priority, s, e) == Some(s') && !(e.GiveUp? && e.task in d) && t in d
    ensures BlockedWithin(priority, s', d, t)
  {
    assert BlockedWithin(priority, s, d, t);
    var u :| u in d && Blocks(priority, s, u, t);
    assert BlockedWithin(priority, s, d, u);
    var v :| v in d && Blocks(priority, s, v, u);
    BlockedCannotGoOn(priority, s, u, t);
    BlockedCannotGoOn(priority, s, v, u);
    BlockingLasts(priority, s, e, s', u, t);
  }

  /** A deadlock lasts until one of its tasks gives up. */
  lemma DeadlockLasts(priority: bool, s: State, e: Event, d: set<Task>)
    requires Stuck(priority, s, d) && Next(priority, s, e).Some? && !(e.GiveUp? && e.task in d)
    ensures Stuck(priority, Next(priority, s, e).value, d)
  {
    var s' := Next(priority, s, e).value;
    forall t | t in d ensures BlockedWithin(priority, s', d, t) {
      BlockedStays(priority, s, e, s', d, t);
    }
  }

  // ---------------------------------------------------------------------------------------------
  // Tables first
  // ---------------------------------------------------------------------------------------------

  /** Whenever a table lock is asked for, for reading or writing, everything its task holds is in `allowed`. */
  ghost predicate Obeys(priority: bool, events: seq<Event>, allowed: iset<Key>) {
    events != [] ==>
      var before, e := events[..|events| - 1], events[|events| - 1];
      && Obeys(priority, before, allowed)
      && ((e.Read? || e.Write?) && Reach(priority, before).Some? ==>
            forall h :: h in Held(Reach(priority, before).value, e.task) ==> KeyOf(h) in allowed)
  }

  /** `t` waits for the `write_lock` of the table. */
  predicate Awaits(s: State, t: Task, c: Table) {
    t in s.waiting && s.waiting[t] == ForWrite(c)
  }

  /** A task that waits for a table holds nothing else, whoever has a `write_lock` has recorded it and does not wait for
      it, and nobody leaked. */
  ghost predicate TablesFirst(s: State) {
    && WaitsUpward(s)
    && s.leaked == {}
    && (forall t :: t in s.waiting ==>
          && (s.waiting[t].ForRead? ==> Held(s, t) == [])
          && (s.waiting[t].ForWrite? || s.waiting[t].ForReaders? ==> Held(s, t) == [Writes(s.waiting[t].table)]))
    && (forall c :: c in s.writeLock ==> !Awaits(s, s.writeLock[c], c))
    && (forall c :: c in s.writeLock ==> Writes(c) in Held(s, s.writeLock[c]))
  }

  lemma StepKeepsTablesFirst(priority: bool, s: State, e: Event)
    requires TablesFirst(s) && Next(priority, s, e).Some? && (e.Request? ==> Hierarchical(e.key))
    requires e.Read? || e.Write? ==> Held(s, e.task) == []
    ensures TablesFirst(Next(priority, s, e).value)
  {
    var s' := Next(priority, s, e).value;
    StepKeepsWaitsUpward(priority, s, e);
    forall t | t in s'.waiting
      ensures s'.waiting[t].ForRead? ==> Held(s', t) == []
      ensures s'.waiting[t].ForWrite? || s'.waiting[t].ForReaders? ==> Held(s', t) == [Writes(s'.waiting[t].table)]
    {
      WaiterHolds(priority, s, e, t);
    }
    forall c | c in s'.writeLock ensures Writes(c) in Held(s', s'.writeLock[c]) && !Awaits(s', s'.writeLock[c], c) {
      LockHolderRecorded(priority, s, e, c);
      LockHolderDoesNotWait(priority, s, e, c);
    }
  }

  lemma WaiterHolds(priority: bool, s: State, e: Event, t: Task)
    requires TablesFirst(s) && Next(priority, s, e).Some? && t in Next(priority, s, e).value.waiting
    requires e.Read? || e.Write? ==> Held(s, e.task) == []
    ensures var s' := Next(priority, s, e).value;
            && (s'.waiting[t].ForRead? ==> Held(s', t) == [])
            && (s'.waiting[t].ForWrite? || s'.waiting[t].ForReaders? ==>
                  Held(s', t) == [Writes(s'.waiting[t].table)])
  {
    if !((e.Request? || e.Read? || e.Write?) && e.task == t) {
      WaitingKeepHolding(priority, s, e, t);
    }
  }

  lemma LockHolderRecorded(priority: bool, s: State, e: Event, c: Table)
    requires TablesFirst(s) && Next(priority, s, e).Some? && c in Next(priority, s, e).value.writeLock
    ensures var s' := Next(priority, s, e).value; Writes(c) in Held(s', s'.writeLock[c])
  {
    assert c in s.writeLock ==> !Awaits(s, s.writeLock[c], c);
  }

  lemma LockHolderDoesNotWait(priority: bool, s: State, e: Event, c: Table)
    requires TablesFirst(s) && Next(priority, s, e).Some? && c in Next(priority, s, e).value.writeLock
    requires e.Write? ==> Held(s, e.task) == []
    ensures var s' := Next(priority, s, e).value; !Awaits(s', s'.writeLock[c], c)
  {
    assert c in s.writeLock ==> !Awaits(s, s.writeLock[c], c);
  }

  lemma WhoHoldsIsAllowed(holds: seq<Hold>, allowed: iset<Key>)
    requires forall h :: h in holds ==> Hierarchical(KeyOf(h)) && KeyOf(h) in allowed
    ensures holds != [] ==> exists k :: k in allowed && Hierarchical(k)
  {
    if holds != [] {
      assert holds[0] in holds;
    }
  }

  lemma {:induction false} RunKeepsTablesFirst(priority: bool, events: seq<Event>, allowed: iset<Key>)
    requires Reach(priority, events).Some? && StaysInHierarchy(events) && Obeys(priority, events, allowed)
    requires forall k :: k in allowed ==> !Hierarchical(k)
    ensures TablesFirst(Reach(priority, events).value)
  {
    if events != [] {
      var before, e := events[..|events| - 1], events[|events| - 1];
      RunKeepsTablesFirst(priority, before, allowed);
      assert e in events;
      var s := Reach(priority, before).value;
      if e.Read? || e.Write? {
        WhoHoldsIsAllowed(Held(s, e.task), allowed);
      }
      StepKeepsTablesFirst(priority, s, e);
    }
  }

  /** The order in which tasks keep each other waiting: readers to be, marked writers, the one of them with
      `write_lock`, and those who wait for a lock of their own, by its level. */
  function Rank(s: State, t: Task): int
    requires t in s.waiting
    requires s.waiting[t].ForMutex? ==> Hierarchical(s.waiting[t].key)
  {
    match s.waiting[t]
    case ForRead(_) => 0
    case ForWrite(_) => 1
    case ForReaders(_) => 2
    case ForMutex(k) => 4 + KeyLevel(k)
  }

  lemma RankRises(priority: bool, s: State, u: Task, t: Task)
    requires TablesFirst(s) && Blocks(priority, s, u, t) && u in s.waiting
    requires s.waiting[t].ForMutex? ==> Hierarchical(s.waiting[t].key)
    requires s.waiting[u].ForMutex? ==> Hierarchical(s.waiting[u].key)
    ensures 0 <= Rank(s, t) < Rank(s, u) <= 7
  {
    match s.waiting[t]
    case ForMutex(k) =>
    case ForRead(c) =>
      TableKeys(c);
    case ForWrite(c) =>
      TableKeys(c);
      assert !Awaits(s, u, c);
    case ForReaders(c) =>
      TableKeys(c);
  }

  lemma RankedWhenWaiting(s: State, t: Task)
    requires TablesFirst(s) && t in s.waiting
    ensures s.waiting[t].ForMutex? ==> Hierarchical(s.waiting[t].key)
  {
    if s.waiting[t].ForMutex? {
      assert Above(s.waiting[t].key, Held(s, t));
    }
  }

  /** In a deadlock there would be no end to the ranks. */
  lemma {:induction false} RanksRiseForEver(priority: bool, s: State, d: set<Task>, n: nat) returns (t: Task)
    requires TablesFirst(s) && Stuck(priority, s, d)
    ensures t in d && t in s.waiting && (s.waiting[t].ForMutex? ==> Hierarchical(s.waiting[t].key))
    ensures n > 0 ==> n <= Rank(s, t) <= 7
  {
    if n == 0 {
      t :| t in d;
      assert BlockedWithin(priority, s, d, t);
    } else {
      var before := RanksRiseForEver(priority, s, d, n - 1);
      assert BlockedWithin(priority, s, d, before);
      t :| t in d && Blocks(priority, s, t, before);
      assert BlockedWithin(priority, s, d, t);
      RankedWhenWaiting(s, t);
      RankRises(priority, s, t, before);
    }
    RankedWhenWaiting(s, t);
  }

  /** Tasks that ask for a table only with empty hands never deadlock. */
  lemma TablesFirstNeverDeadlocks(priority: bool, s: State)
    requires TablesFirst(s)
    ensures !Deadlocked(priority, s)
  {
    if d :| Stuck(priority, s, d) {
      var t := RanksRiseForEver(priority, s, d, 8);
    }
  }

  // ---------------------------------------------------------------------------------------------
  // Everything else deadlocks
  // ---------------------------------------------------------------------------------------------

  lemma More(priority: bool, events: seq<Event>, e: Event, s: State)
    requires Reach(priority, events) == Some(s)
    ensures Reach(priority, events + [e]) == Next(priority, s, e)
  {
    assert (events + [e])[..|events|] == events;
  }

  /** A run inside the hierarchy that asks for tables only as allowed, and where it leads. */
  ghost predicate Leads(priority: bool, events: seq<Event>, allowed: iset<Key>, s: State) {
    Reach(priority, events) == Some(s) && StaysInHierarchy(events) && Obeys(priority, events, allowed)
  }

  lemma Longer(priority: bool, events: seq<Event>, e: Event, s: State, allowed: iset<Key>)
    requires Leads(priority, events, allowed, s) && Next(priority, s, e).Some?
    requires e.Request? ==> Hierarchical(e.key)
    requires e.Read? || e.Write? ==> forall h :: h in Held(s, e.task) ==> KeyOf(h) in allowed
    ensures Leads(priority, events + [e], allowed, Next(priority, s, e).value)
  {
    assert (events + [e])[..|events|] == events;
  }

  lemma FirstHold(s: State, t: Task, h: Hold)
    requires Held(s, t) == []
    ensures Record(s, t, h) == s.(held := s.held[t := [h]]) && Keys([h]) == [KeyOf(h)]
  {
    assert Held(s, t) + [h] == [h];
  }

  /** A task that is not waiting takes a free lock of its own. */
  lemma TakeMutex(priority: bool, events: seq<Event>, s: State, t: Task, k: Key, allowed: iset<Key>)
    returns (more: seq<Event>)
    requires Leads(priority, events, allowed, s) && t !in s.waiting && !Owned(s, k) && Hierarchical(k)
    requires k !in Keys(Held(s, t)) && Validate(Keys(Held(s, t)), k) == Passed
    ensures Leads(priority, more, allowed, Record(s, t, Mutex(k)))
  {
    var s1 := s.(waiting := s.waiting[t := ForMutex(k)]);
    Longer(priority, events, Request(t, k), s, allowed);
    Longer(priority, events + [Request(t, k)], Grant(t), s1, allowed);
    assert s1.waiting - {t} == s.waiting;
    more := events + [Request(t, k)] + [Grant(t)];
  }

  /** A task with empty hands reads a table that nobody writes or wants to. */
  lemma TakeRead(priority: bool, events: seq<Event>, s: State, t: Task, c: Table, allowed: iset<Key>)
    returns (more: seq<Event>)
    requires Leads(priority, events, allowed, s) && t !in s.waiting && Held(s, t) == []
    requires c !in s.writeLock && !HasMarked(s, c)
    ensures Leads(priority, more, allowed, Record(s, t, Reads(c)))
  {
    var s1 := s.(waiting := s.waiting[t := ForRead(c)]);
    Longer(priority, events, Read(t, c), s, allowed);
    Longer(priority, events + [Read(t, c)], Grant(t), s1, allowed);
    assert s1.waiting - {t} == s.waiting;
    more := events + [Read(t, c)] + [Grant(t)];
  }

  /** A task asks to write a table and gets as far as polling for its readers. */
  lemma StartWriting(priority: bool, events: seq<Event>, s: State, t: Task, c: Table, allowed: iset<Key>)
    returns (more: seq<Event>)
    requires Leads(priority, events, allowed, s) && t !in s.waiting && c !in s.writeLock
    requires Validate(Keys(Held(s, t)), WriteKey(c)) == Passed && forall h :: h in Held(s, t) ==> KeyOf(h) in allowed
    ensures Leads(priority, more, allowed,
                  Record(s, t, Writes(c)).(waiting := s.waiting[t := ForReaders(c)], writeLock := s.writeLock[c := t]))
  {
    var s1 := Record(s, t, Writes(c)).(waiting := s.waiting[t := ForWrite(c)]);
    Longer(priority, events, Write(t, c), s, allowed);
    Longer(priority, events + [Write(t, c)], Seize(t), s1, allowed);
    assert s1.waiting[t := ForReaders(c)] == s.waiting[t := ForReaders(c)];
    more := events + [Write(t, c)] + [Seize(t)];
  }

  /** Upgrading: a reader of a table that asks to write it waits for itself. */
  lemma UpgradeDeadlocks(priority: bool, c: Table, allowed: iset<Key>) returns (events: seq<Event>, s: State)
    requires ReadKey(c) in allowed
    ensures Leads(priority, events, allowed, s) && Stuck(priority, s, {1})
    ensures s.waiting == map[1 := ForReaders(c)] && Held(s, 1) == [Reads(c), Writes(c)]
  {
    TableKeys(c);
    events := TakeRead(priority, [], START, 1, c, allowed);
    FirstHold(START, 1, Reads(c));
    var s1 := Record(START, 1, Reads(c));
    OneHeldPasses(ReadKey(c), WriteKey(c));
    events := StartWriting(priority, events, s1, 1, c, allowed);
    s := Record(s1, 1, Writes(c)).(waiting := map[1 := ForReaders(c)], writeLock := map[c := 1]);
    assert Blocks(priority, s, 1, 1);
    assert BlockedWithin(priority, s, {1}, 1);
  }

  /** Task 1 writes the table. */
  function WritingIt(c: Table): State {
    START.(held := map[1 := [Writes(c)]], writeLock := map[c := 1])
  }

  lemma RunToWriting(priority: bool, c: Table, allowed: iset<Key>) returns (events: seq<Event>)
    ensures Leads(priority, events, allowed, WritingIt(c))
  {
    events := StartWriting(priority, [], START, 1, c, allowed);
    var s := Record(START, 1, Writes(c)).(waiting := map[1 := ForReaders(c)], writeLock := map[c := 1]);
    FirstHold(START, 1, Writes(c));
    assert s.waiting - {1} == map[];
    Longer(priority, events, Grant(1), s, allowed);
    events := events + [Grant(1)];
  }

  /** Reading what one writes: the writer waits for its own lock before anything is checked. */
  lemma ReadingWhileWritingDeadlocks(priority: bool, c: Table, allowed: iset<Key>)
    returns (events: seq<Event>, s: State)
    requires WriteKey(c) in allowed
    ensures Leads(priority, events, allowed, s) && Stuck(priority, s, {1})
    ensures s.waiting == map[1 := ForRead(c)] && Held(s, 1) == [Writes(c)]
  {
    events := RunToWriting(priority, c, allowed);
    Longer(priority, events, Read(1, c), WritingIt(c), allowed);
    events := events + [Read(1, c)];
    s := WritingIt(c).(waiting := map[1 := ForRead(c)]);
    assert Blocks(priority, s, 1, 1);
    assert BlockedWithin(priority, s, {1}, 1);
  }

  /** Writing what one writes: the check lets the writer pass as one that re-enters, but `write_lock` does not. */
  lemma WritingAgainDeadlocks(priority: bool, c: Table, allowed: iset<Key>) returns (events: seq<Event>, s: State)
    requires WriteKey(c) in allowed
    ensures Leads(priority, events, allowed, s) && Stuck(priority, s, {1})
    ensures s.waiting == map[1 := ForWrite(c)] && Held(s, 1) == [Writes(c), Writes(c)]
  {
    events := RunToWriting(priority, c, allowed);
    PassesExactlyWhenAscending([WriteKey(c)], WriteKey(c));
    Longer(priority, events, Write(1, c), WritingIt(c), allowed);
    events := events + [Write(1, c)];
    assert [Writes(c)] + [Writes(c)] == [Writes(c), Writes(c)];
    s := Record(WritingIt(c), 1, Writes(c)).(waiting := map[1 := ForWrite(c)]);
    assert Blocks(priority, s, 1, 1);
    assert BlockedWithin(priority, s, {1}, 1);
  }

  /** Task 1 reads the table and task 2 waits for the end of its readers. */
  function ReadAndWanted(c: Table): State {
    State(map[1 := [Reads(c)], 2 := [Writes(c)]], map[2 := ForReaders(c)], map[c := 2], {})
  }

  /** Reading again: with writer priority the reader waits for a writer that waits for the reader. */
  lemma ReadingAgainDeadlocks(c: Table, allowed: iset<Key>) returns (events: seq<Event>, s: State)
    requires ReadKey(c) in allowed
    ensures Leads(true, events, allowed, s) && Stuck(true, s, {1, 2})
    ensures s.waiting == map[1 := ForRead(c), 2 := ForReaders(c)]
    ensures Held(s, 1) == [Reads(c)] && Held(s, 2) == [Writes(c)]
  {
    events := TakeRead(true, [], START, 1, c, allowed);
    FirstHold(START, 1, Reads(c));
    var s1 := Record(START, 1, Reads(c));
    events := StartWriting(true, events, s1, 2, c, allowed);
    FirstHold(s1, 2, Writes(c));
    assert Record(s1, 2, Writes(c)).(waiting := s1.waiting[2 := ForReaders(c)], writeLock := s1.writeLock[c := 2])
        == ReadAndWanted(c);
    Longer(true, events, Read(1, c), ReadAndWanted(c), allowed);
    events := events + [Read(1, c)];
    s := ReadAndWanted(c).(waiting := map[1 := ForRead(c), 2 := ForReaders(c)]);
    assert s.waiting == ReadAndWanted(c).waiting[1 := ForRead(c)];
    assert Blocks(true, s, 2, 1) && Blocks(true, s, 1, 2);
    assert BlockedWithin(true, s, {1, 2}, 1) && BlockedWithin(true, s, {1, 2}, 2);
  }

  lemma OneHeldPasses(held: Key, requested: Key)
    requires Hierarchical(requested) ==> !Hierarchical(held) || KeyLevel(held) < KeyLevel(requested)
    ensures Validate([held], requested) == Passed
  {
    PassesExactlyWhenAscending([held], requested);
  }

  lemma CrossedIsStuck(priority: bool, s: State, k: Key, c: Table)
    requires Held(s, 1) == [Mutex(k), Writes(c)] && Held(s, 2) == [Reads(c)] && c in s.writeLock && s.writeLock[c] == 1
    requires s.waiting == map[1 := ForReaders(c), 2 := ForMutex(k)]
    ensures Stuck(priority, s, {1, 2})
  {
    assert Blocks(priority, s, 2, 1) && Blocks(priority, s, 1, 2);
    assert BlockedWithin(priority, s, {1, 2}, 1) && BlockedWithin(priority, s, {1, 2}, 2);
  }

  /** One task holds `k`, the other one reads the table. */
  function Apart(k: Key, c: Table): State {
    START.(held := map[1 := [Mutex(k)], 2 := [Reads(c)]])
  }

  lemma RunToApart(priority: bool, k: Key, c: Table, allowed: iset<Key>) returns (events: seq<Event>)
    requires Hierarchical(k)
    ensures Leads(priority, events, allowed, Apart(k, c))
  {
    events := TakeMutex(priority, [], START, 1, k, allowed);
    FirstHold(START, 1, Mutex(k));
    var s1 := Record(START, 1, Mutex(k));
    events := TakeRead(priority, events, s1, 2, c, allowed);
    FirstHold(s1, 2, Reads(c));
  }

  /** The first of them polls for readers of the table. */
  function Polling(k: Key, c: Table): State {
    var s := Apart(k, c);
    s.(held := s.held[1 := [Mutex(k), Writes(c)]], waiting := s.waiting[1 := ForReaders(c)],
       writeLock := s.writeLock[c := 1])
  }

  lemma RunToPolling(priority: bool, events: seq<Event>, k: Key, c: Table, allowed: iset<Key>)
    returns (more: seq<Event>)
    requires k in allowed && Hierarchical(k) && KeyLevel(k) < 3 && Leads(priority, events, allowed, Apart(k, c))
    ensures Leads(priority, more, allowed, Polling(k, c))
  {
    TableKeys(c);
    OneHeldPasses(k, WriteKey(c));
    FirstHold(START, 1, Mutex(k));
    more := StartWriting(priority, events, Apart(k, c), 1, c, allowed);
    assert [Mutex(k)] + [Writes(c)] == [Mutex(k), Writes(c)];
  }

  /** Crossing: one task holds `k` and asks to write a table, the other one reads the table and asks for `k`. Both go
      up. */
  lemma CrossingDeadlocks(priority: bool, k: Key, c: Table, allowed: iset<Key>) returns (events: seq<Event>, s: State)
    requires k in allowed && Hierarchical(k) && -1 < KeyLevel(k) < 3
    ensures Leads(priority, events, allowed, s) && Stuck(priority, s, {1, 2})
    ensures s.waiting == map[1 := ForReaders(c), 2 := ForMutex(k)]
    ensures Held(s, 1) == [Mutex(k), Writes(c)] && Held(s, 2) == [Reads(c)]
  {
    TableKeys(c);
    OneHeldPasses(ReadKey(c), k);
    FirstHold(START, 2, Reads(c));
    events := RunToApart(priority, k, c, allowed);
    events := RunToPolling(priority, events, k, c, allowed);
    var s3 := Polling(k, c);
    Longer(priority, events, Request(2, k), s3, allowed);
    events := events + [Request(2, k)];
    s := s3.(waiting := s3.waiting[2 := ForMutex(k)]);
    CrossedIsStuck(priority, s, k, c);
  }

  /** Whatever lock of the hierarchy may be held while a table is asked for, some run inside the hierarchy deadlocks. */
  lemma HoldingAnythingDeadlocks(priority: bool, k: Key, allowed: iset<Key>) returns (events: seq<Event>, s: State)
    requires k in allowed && Hierarchical(k)
    ensures Leads(priority, events, allowed, s) && Deadlocked(priority, s)
  {
    var c := KindOfKey(k);
    if k == ReadKey(c) {
      events, s := UpgradeDeadlocks(priority, c, allowed);
    } else if k == WriteKey(c) {
      events, s := ReadingWhileWritingDeadlocks(priority, c, allowed);
    } else {
      events, s := CrossingDeadlocks(priority, k, "7", allowed);
    }
  }

  /** The exact promise of the hierarchy. Let `allowed` say which locks a task may hold when it asks for a table. The
      runs that stay inside the hierarchy are free of deadlock if and only if `allowed` has no lock of the hierarchy:
      tables are asked for with empty hands. */
  lemma HierarchyIsDeadlockFreeExactlyWhen(priority: bool, allowed: iset<Key>)
    ensures (forall events ::
               Reach(priority, events).Some? && StaysInHierarchy(events) && Obeys(priority, events, allowed) ==>
               !Deadlocked(priority, Reach(priority, events).value)) <==>
            forall k :: k in allowed ==> !Hierarchical(k)
  {
    if forall k :: k in allowed ==> !Hierarchical(k) {
      forall events | Reach(priority, events).Some? && StaysInHierarchy(events) && Obeys(priority, events, allowed)
        ensures !Deadlocked(priority, Reach(priority, events).value)
      {
        RunKeepsTablesFirst(priority, events, allowed);
        TablesFirstNeverDeadlocks(priority, Reach(priority, events).value);
      }
    }
    if k :| k in allowed && Hierarchical(k) {
      var events, s := HoldingAnythingDeadlocks(priority, k, allowed);
      assert Reach(priority, events).Some?;
    }
  }

  // ---------------------------------------------------------------------------------------------
  // Everybody comes to an end
  // ---------------------------------------------------------------------------------------------

  /** Nobody waits and nobody holds anything. */
  ghost predicate AtRest(s: State) {
    s.waiting == map[] && forall t :: Held(s, t) == []
  }

  /** A wait that ends well, or a lock given back. */
  predicate Finishes(e: Event) {
    e.Seize? || e.Grant? || e.Release? || e.EndRead? || e.EndWrite?
  }

  /** Without new requests and without anybody giving up, everything that is under way can be finished. */
  ghost predicate CanFinish(priority: bool, events: seq<Event>) {
    exists more: seq<Event> :: EndsAtRest(priority, events, more)
  }

  ghost predicate EndsAtRest(priority: bool, events: seq<Event>, more: seq<Event>) {
    && (forall e :: e in more ==> Finishes(e))
    && Reach(priority, events + more).Some? && AtRest(Reach(priority, events + more).value)
  }

  /** The write side of a table is the first thing recorded, if at all. */
  predicate WritesFirst(holds: seq<Hold>) {
    forall i :: 0 < i < |holds| ==> !holds[i].Writes?
  }

  /** And who has recorded it and does not wait for the `write_lock` has that. */
  ghost predicate Tidy(s: State) {
    && TablesFirst(s)
    && (forall t :: WritesFirst(Held(s, t)))
    && (forall t, c :: Writes(c) in Held(s, t) && !Awaits(s, t, c) ==> c in s.writeLock && s.writeLock[c] == t)
  }

  lemma DropKeepsWritesFirst(holds: seq<Hold>, h: Hold)
    requires WritesFirst(holds)
    ensures WritesFirst(Drop(holds, h)) && (h.Writes? ==> h !in Drop(holds, h))
  {
    if holds != [] {
      assert forall x :: x in holds[1..] ==> !x.Writes?;
      if holds[0] != h {
        var rest := Drop(holds[1..], h);
        assert Drop(holds, h) == [holds[0]] + rest;
        assert forall x :: x in rest ==> !x.Writes?;
      }
    }
  }

  lemma StepKeepsWritesFirst(priority: bool, s: State, e: Event, t: Task)
    requires Tidy(s) && Next(priority, s, e).Some? && (e.Read? || e.Write? ==> Held(s, e.task) == [])
    ensures WritesFirst(Held(Next(priority, s, e).value, t))
  {
    assert WritesFirst(Held(s, t));
    match e
    case GiveUp(_) =>
      if s.waiting[e.task].ForWrite? || s.waiting[e.task].ForReaders? {
        DropKeepsWritesFirst(Held(s, e.task), Writes(s.waiting[e.task].table));
      }
    case Release(_, k) => DropKeepsWritesFirst(Held(s, e.task), Mutex(k));
    case EndRead(_, c) => DropKeepsWritesFirst(Held(s, e.task), Reads(c));
    case EndWrite(_, c) => DropKeepsWritesFirst(Held(s, e.task), Writes(c));
    case _ =>
  }

  lemma OthersKeepWriteLocks(priority: bool, s: State, e: Event, t: Task, c: Table)
    requires Next(priority, s, e).Some? && e.task != t
    ensures var s' := Next(priority, s, e).value;
            && Held(s', t) == Held(s, t) && (Awaits(s', t, c) <==> Awaits(s, t, c))
            && (c in s.writeLock && s.writeLock[c] == t ==> c in s'.writeLock && s'.writeLock[c] == t)
  {
  }

  lemma LeavingKeepsWriteLock(priority: bool, s: State, e: Event, c: Table)
    requires Tidy(s) && Next(priority, s, e).Some? && (e.GiveUp? || e.Release? || e.EndRead? || e.EndWrite?)
    requires Writes(c) in Held(Next(priority, s, e).value, e.task)
    ensures var s' := Next(priority, s, e).value; c in s'.writeLock && s'.writeLock[c] == e.task
  {
    assert WritesFirst(Held(s, e.task));
    DropKeepsWritesFirst(Held(s, e.task), Writes(c));
    assert !(e.GiveUp? && Awaits(s, e.task, c));
  }

  lemma GoingOnKeepsWriteLock(priority: bool, s: State, e: Event, c: Table)
    requires Tidy(s) && Next(priority, s, e).Some? && (e.Write? ==> Held(s, e.task) == [])
    requires e.Request? || e.Read? || e.Write? || e.Seize? || e.Grant?
    requires var s' := Next(priority, s, e).value; Writes(c) in Held(s', e.task) && !Awaits(s', e.task, c)
    ensures var s' := Next(priority, s, e).value; c in s'.writeLock && s'.writeLock[c] == e.task
  {
  }

  lemma StepKeepsWriteLocks(priority: bool, s: State, e: Event, t: Task, c: Table)
    requires Tidy(s) && Next(priority, s, e).Some? && (e.Read? || e.Write? ==> Held(s, e.task) == [])
    requires var s' := Next(priority, s, e).value; Writes(c) in Held(s', t) && !Awaits(s', t, c)
    ensures var s' := Next(priority, s, e).value; c in s'.writeLock && s'.writeLock[c] == t
  {
    if e.task != t {
      OthersKeepWriteLocks(priority, s, e, t, c);
    } else if e.GiveUp? || e.Release? || e.EndRead? || e.EndWrite? {
      LeavingKeepsWriteLock(priority, s, e, c);
    } else {
      GoingOnKeepsWriteLock(priority, s, e, c);
    }
  }

  lemma StepKeepsTidy(priority: bool, s: State, e: Event)
    requires Tidy(s) && Next(priority, s, e).Some? && (e.Request? ==> Hierarchical(e.key))
    requires e.Read? || e.Write? ==> Held(s, e.task) == []
    ensures Tidy(Next(priority, s, e).value)
  {
    var s' := Next(priority, s, e).value;
    StepKeepsTablesFirst(priority, s, e);
    forall t ensures WritesFirst(Held(s', t)) {
      StepKeepsWritesFirst(priority, s, e, t);
    }
    forall t, c | Writes(c) in Held(s', t) && !Awaits(s', t, c) ensures c in s'.writeLock && s'.writeLock[c] == t {
      StepKeepsWriteLocks(priority, s, e, t, c);
    }
  }

  lemma {:induction false} RunKeepsTidy(priority: bool, events: seq<Event>, allowed: iset<Key>)
    requires Reach(priority, events).Some? && StaysInHierarchy(events) && Obeys(priority, events, allowed)
    requires forall k :: k in allowed ==> !Hierarchical(k)
    ensures Tidy(Reach(priority, events).value)
  {
    if events != [] {
      var before, e := events[..|events| - 1], events[|events| - 1];
      RunKeepsTidy(priority, before, allowed);
      assert e in events;
      var s := Reach(priority, before).value;
      if e.Read? || e.Write? {
        WhoHoldsIsAllowed(Held(s, e.task), allowed);
      }
      StepKeepsTidy(priority, s, e);
    }
  }

  function Awaiting(s: State): set<Task> {
    set t | t in s.waiting && s.waiting[t].ForWrite?
  }

  function Recorded(s: State): set<(Task, nat)> {
    set t, i: nat | t in s.held && i < |s.held[t]| :: (t, i)
  }

  /** Fewer tasks wait, or fewer of them for a `write_lock`, or less is recorded. */
  predicate Shrinks(s: State, s': State) {
    || |s'.waiting.Keys| < |s.waiting.Keys|
    || (|s'.waiting.Keys| == |s.waiting.Keys| &&
        (|Awaiting(s')| < |Awaiting(s)|
         || (|Awaiting(s')| == |Awaiting(s)| && |Recorded(s')| < |Recorded(s)|)))
  }

  lemma LessRecorded(s: State, s': State, t: Task)
    requires Held(s, t) != [] && s'.waiting == s.waiting && s'.held == s.held[t := Held(s, t)[1..]]
    ensures Shrinks(s, s')
  {
    assert Awaiting(s') == Awaiting(s);
    var last := (t, |Held(s, t)| - 1);
    assert last in Recorded(s) && Recorded(s') == Recorded(s) - {last};
  }

  /** A task that does not wait gives back the first lock that it has recorded. */
  lemma GivesBack(priority: bool, s: State, t: Task) returns (e: Event)
    requires Tidy(s) && t !in s.waiting && Held(s, t) != []
    ensures Finishes(e) && Next(priority, s, e).Some? && Shrinks(s, Next(priority, s, e).value)
  {
    var h := Held(s, t)[0];
    match h {
      case Mutex(k) => e := Release(t, k);
      case Reads(c) => e := EndRead(t, c);
      case Writes(c) =>
        assert !Awaits(s, t, c);
        e := EndWrite(t, c);
    }
    LessRecorded(s, Next(priority, s, e).value, t);
  }

  lemma BlockersHoldOrWait(priority: bool, s: State, u: Task, t: Task)
    requires TablesFirst(s) && Blocks(priority, s, u, t)
    ensures Held(s, u) != [] || u in s.waiting
  {
  }

  lemma NobodyElseBlocks(priority: bool, s: State, t: Task)
    requires TablesFirst(s) && !BlockedWithin(priority, s, s.waiting.Keys, t)
    requires forall u :: Held(s, u) != [] ==> u in s.waiting
    ensures forall u: Task :: !Blocks(priority, s, u, t)
  {
    forall u: Task ensures !Blocks(priority, s, u, t) {
      if Blocks(priority, s, u, t) {
        BlockersHoldOrWait(priority, s, u, t);
      }
    }
  }

  lemma NotStuck(priority: bool, s: State, d: set<Task>) returns (t: Task)
    requires d != {} && !Deadlocked(priority, s)
    ensures t in d && !BlockedWithin(priority, s, d, t)
  {
    assert !Stuck(priority, s, d);
    t :| t in d && !BlockedWithin(priority, s, d, t);
  }

  lemma UnblockedWaiter(priority: bool, s: State) returns (t: Task)
    requires TablesFirst(s) && s.waiting != map[] && forall u :: Held(s, u) != [] ==> u in s.waiting
    ensures t in s.waiting && forall u: Task :: !Blocks(priority, s, u, t)
  {
    TablesFirstNeverDeadlocks(priority, s);
    assert s.waiting.Keys != {};
    t := NotStuck(priority, s, s.waiting.Keys);
    NobodyElseBlocks(priority, s, t);
  }

  lemma WaitEnds(priority: bool, s: State, t: Task) returns (e: Event)
    requires t in s.waiting && forall u: Task :: !Blocks(priority, s, u, t)
    ensures Finishes(e) && Next(priority, s, e).Some? && Shrinks(s, Next(priority, s, e).value)
  {
    BlockedExactlyWhenNoStep(priority, s, t);
    if Next(priority, s, Grant(t)).Some? {
      e := Grant(t);
      assert Next(priority, s, e).value.waiting.Keys == s.waiting.Keys - {t};
    } else {
      e := Seize(t);
      var s' := Next(priority, s, e).value;
      assert s'.waiting.Keys == s.waiting.Keys;
      assert t in Awaiting(s) && Awaiting(s') == Awaiting(s) - {t};
    }
  }

  lemma SomeoneGoesOn(priority: bool, s: State) returns (e: Event)
    requires Tidy(s) && !AtRest(s)
    ensures Finishes(e) && Next(priority, s, e).Some? && Shrinks(s, Next(priority, s, e).value)
  {
    if t :| t !in s.waiting && Held(s, t) != [] {
      e := GivesBack(priority, s, t);
    } else {
      var t := UnblockedWaiter(priority, s);
      e := WaitEnds(priority, s, t);
    }
  }

  lemma OneStepOn(priority: bool, events: seq<Event>, s: State) returns (e: Event, s': State)
    requires Reach(priority, events) == Some(s) && Tidy(s) && !AtRest(s)
    ensures Finishes(e) && Reach(priority, events + [e]) == Some(s') && Tidy(s') && Shrinks(s, s')
  {
    e := SomeoneGoesOn(priority, s);
    s' := Next(priority, s, e).value;
    StepKeepsTidy(priority, s, e);
    More(priority, events, e, s);
  }

  lemma OneMoreBefore(priority: bool, events: seq<Event>, e: Event, rest: seq<Event>)
    requires Finishes(e) && EndsAtRest(priority, events + [e], rest)
    ensures EndsAtRest(priority, events, [e] + rest)
  {
    assert events + ([e] + rest) == events + [e] + rest;
  }

  lemma {:induction false} ComesToAnEnd(priority: bool, events: seq<Event>, s: State) returns (more: seq<Event>)
    requires Reach(priority, events) == Some(s) && Tidy(s)
    ensures EndsAtRest(priority, events, more)
    decreases |s.waiting.Keys|, |Awaiting(s)|, |Recorded(s)|
  {
    if AtRest(s) {
      more := [];
      assert events + more == events;
    } else {
      var e, s' := OneStepOn(priority, events, s);
      var rest := ComesToAnEnd(priority, events + [e], s');
      more := [e] + rest;
      OneMoreBefore(priority, events, e, rest);
    }
  }

  lemma {:induction false} StuckForEver(priority: bool, events: seq<Event>, more: seq<Event>, d: set<Task>)
    requires Reach(priority, events).Some? && Stuck(priority, Reach(priority, events).value, d)
    requires (forall e :: e in more ==> Finishes(e)) && Reach(priority, events + more).Some?
    ensures Stuck(priority, Reach(priority, events + more).value, d)
  {
    if more == [] {
      assert events + more == events;
    } else {
      var before, e := more[..|more| - 1], more[|more| - 1];
      assert (events + more)[..|events + more| - 1] == events + before && e in more;
      StuckForEver(priority, events, before, d);
      DeadlockLasts(priority, Reach(priority, events + before).value, e, d);
    }
  }

  lemma StuckIsNotAtRest(priority: bool, s: State, d: set<Task>)
    requires Stuck(priority, s, d)
    ensures !AtRest(s)
  {
    var t :| t in d;
    assert BlockedWithin(priority, s, d, t);
  }

  lemma DeadlockedCannotFinish(priority: bool, events: seq<Event>)
    requires Reach(priority, events).Some? && Deadlocked(priority, Reach(priority, events).value)
    ensures !CanFinish(priority, events)
  {
    var d :| Stuck(priority, Reach(priority, events).value, d);
    if more :| EndsAtRest(priority, events, more) {
      StuckForEver(priority, events, more, d);
      StuckIsNotAtRest(priority, Reach(priority, events + more).value, d);
    }
  }

  /** And what the hierarchy promises beyond: under the same condition, and only then, whatever state a run comes to,
      all waits can still end and all locks be given back without anybody giving up. */
  lemma EverybodyFinishesExactlyWhen(priority: bool, allowed: iset<Key>)
    ensures (forall events ::
               Reach(priority, events).Some? && StaysInHierarchy(events) && Obeys(priority, events, allowed) ==>
               CanFinish(priority, events)) <==>
            forall k :: k in allowed ==> !Hierarchical(k)
  {
    if forall k :: k in allowed ==> !Hierarchical(k) {
      forall events | Reach(priority, events).Some? && StaysInHierarchy(events) && Obeys(priority, events, allowed)
        ensures CanFinish(priority, events)
      {
        RunKeepsTidy(priority, events, allowed);
        var more := ComesToAnEnd(priority, events, Reach(priority, events).value);
      }
    }
    if k :| k in allowed && Hierarchical(k) {
      var events, s := HoldingAnythingDeadlocks(priority, k, allowed);
      DeadlockedCannotFinish(priority, events);
    }
  }

  // ---------------------------------------------------------------------------------------------
  // What the detector misses, and what it finds
  // ---------------------------------------------------------------------------------------------

  /** The detector reports none of these deadlocks: whichever lock of the hierarchy is held while a table is asked for,
      some run ends in a deadlock and its graph has no cycle. */
  lemma DetectorMissesTableDeadlocks(priority: bool, k: Key) returns (events: seq<Event>, s: State)
    requires Hierarchical(k)
    ensures Reach(priority, events) == Some(s) && StaysInHierarchy(events) && Deadlocked(priority, s)
    ensures forall g :: WaitsFor(s, g) ==> !HasCycle(g)
  {
    events, s := HoldingAnythingDeadlocks(priority, k, iset{k});
    forall g | WaitsFor(s, g) ensures !HasCycle(g) {
      DetectorGraphIsAcyclic(priority, events, g);
    }
  }

  lemma TakeAny(priority: bool, events: seq<Event>, s: State, t: Task, k: Key) returns (more: seq<Event>)
    requires Reach(priority, events) == Some(s) && t !in s.waiting && Held(s, t) == [] && !Owned(s, k)
    ensures Reach(priority, more) == Some(Record(s, t, Mutex(k)))
  {
    var s1 := s.(waiting := s.waiting[t := ForMutex(k)]);
    More(priority, events, Request(t, k), s);
    More(priority, events + [Request(t, k)], Grant(t), s1);
    assert s1.waiting - {t} == s.waiting;
    more := events + [Request(t, k)] + [Grant(t)];
  }

  /** Two tasks, each with a lock of its own. */
  function TwoLocks(outer: Key, inner: Key): State {
    START.(held := map[1 := [Mutex(outer)], 2 := [Mutex(inner)]])
  }

  lemma RunToTwoLocks(priority: bool, outer: Key, inner: Key) returns (events: seq<Event>)
    requires outer != inner
    ensures Reach(priority, events) == Some(TwoLocks(outer, inner))
  {
    FirstHold(START, 1, Mutex(outer));
    events := TakeAny(priority, [], START, 1, outer);
    var s1 := Record(START, 1, Mutex(outer));
    FirstHold(s1, 2, Mutex(inner));
    events := TakeAny(priority, events, s1, 2, inner);
  }

  lemma CrossingRequests(priority: bool, events: seq<Event>, outer: Key, inner: Key) returns (more: seq<Event>)
    requires Reach(priority, events) == Some(TwoLocks(outer, inner)) && !Hierarchical(outer) && Hierarchical(inner)
    ensures var waiting := map[1 := ForMutex(inner), 2 := ForMutex(outer)];
            Reach(priority, more) == Some(TwoLocks(outer, inner).(waiting := waiting))
  {
    PassesExactlyWhenAscending([outer], inner);
    PassesExactlyWhenAscending([inner], outer);
    FirstHold(START, 1, Mutex(outer));
    FirstHold(START, 2, Mutex(inner));
    var s := TwoLocks(outer, inner);
    var s1 := s.(waiting := s.waiting[1 := ForMutex(inner)]);
    More(priority, events, Request(1, inner), s);
    More(priority, events + [Request(1, inner)], Request(2, outer), s1);
    more := events + [Request(1, inner)] + [Request(2, outer)];
    assert s1.waiting[2 := ForMutex(outer)] == map[1 := ForMutex(inner), 2 := ForMutex(outer)];
  }

  /** With a lock outside the hierarchy two tasks pass every check and wait for each other; that the detector sees. */
  lemma OutsideTheHierarchyTasksDeadlock(priority: bool, outer: Key, inner: Key)
    returns (events: seq<Event>, s: State, g: Graph)
    requires !Hierarchical(outer) && Hierarchical(inner)
    ensures Reach(priority, events) == Some(s) && Deadlocked(priority, s)
    ensures WaitsFor(s, g) && HasCycle(g)
  {
    events := RunToTwoLocks(priority, outer, inner);
    events := CrossingRequests(priority, events, outer, inner);
    s := TwoLocks(outer, inner).(waiting := map[1 := ForMutex(inner), 2 := ForMutex(outer)]);
    assert Blocks(priority, s, 2, 1) && Blocks(priority, s, 1, 2);
    assert BlockedWithin(priority, s, {1, 2}, 1) && BlockedWithin(priority, s, {1, 2}, 2);
    assert Stuck(priority, s, {1, 2});
    g := map[1 := {2}, 2 := {1}];
    CrossedIsACycle(s, outer, inner, g);
  }

  lemma CrossedIsACycle(s: State, outer: Key, inner: Key, g: Graph)
    requires outer != inner && g == map[1 := {2}, 2 := {1}]
    requires s.held == map[1 := [Mutex(outer)], 2 := [Mutex(inner)]]
    requires s.waiting == map[1 := ForMutex(inner), 2 := ForMutex(outer)]
    ensures WaitsFor(s, g) && HasCycle(g)
  {
    FirstHold(START, 1, Mutex(outer));
    FirstHold(START, 1, Mutex(inner));
    assert ClosedWalk(g, [1, 2, 1]);
  }
}
