/** The lock hierarchy of the lock manager (pokerapp/lock_manager.py): levels, the check that runs before
    a task may wait, and the deadlock detector that runs over the tasks that wait. */
module LockHierarchy {
  import opened Basics
  import opened WaitGraph

  datatype Category =
    | EngineStage | TableWrite | Deck | Betting | Pot | Player | TableRead | PlayerReport | Wallet | Chat

  datatype Verdict = Passed | Violation | NameError

  type Key = string

  /** `LOCK_LEVELS` */
  function Level(c: Category): int {
    match c
    case EngineStage => 3
    case TableWrite => 3
    case Deck => 2
    case Betting => 2
    case Pot => 1
    case Player => 0
    case TableRead => -1
    case PlayerReport => 2
    case Wallet => 3
    case Chat => 4
  }

  /** `_LOCK_PREFIX_LEVELS` */
  const PREFIXES: seq<(string, Category)> := [
    ("player:", Player), ("pot:", Pot), ("deck:", Deck), ("betting:", Betting),
    ("table_read:", TableRead), ("table_write:", TableWrite),
    ("stage:", EngineStage), ("engine_stage:", EngineStage), ("chat:", Chat),
    ("pokerbot:player_report", PlayerReport), ("player_report:", PlayerReport),
    ("wallet:", Wallet), ("player_wallet:", Wallet), ("pokerbot:wallet:", Wallet)
  ]

  function FirstMatch(key: Key, table: seq<(string, Category)>): Option<Category> {
    if table == [] then None
    else if table[0].0 <= key then Some(table[0].1)
    else FirstMatch(key, table[1..])
  }

  /** `_resolve_lock_category` */
  function CategoryOf(key: Key): Option<Category> {
    FirstMatch(key, PREFIXES)
  }

  /** The keys of `hierarchy_map`. */
  predicate Hierarchical(key: Key) {
    CategoryOf(key).Some? && CategoryOf(key).value in {TableRead, Player, Pot, Deck, TableWrite}
  }

  function KeyLevel(key: Key): int
    requires Hierarchical(key)
  {
    Level(CategoryOf(key).value)
  }

  /** `_is_descend_allowed` with `_ALLOWED_DESCENDING_CATEGORIES` */
  predicate DescendAllowed(held: Category, requested: Category) {
    match held
    case EngineStage => requested == PlayerReport
    case Wallet => requested in {TableWrite, Player}
    case _ => false
  }

  function HierarchicalOnly(keys: seq<Key>): (r: seq<Key>)
    ensures forall k :: k in r <==> k in keys && Hierarchical(k)
  {
    if keys == [] then []
    else (if Hierarchical(keys[0]) then [keys[0]] else []) + HierarchicalOnly(keys[1..])
  }

  /** `max(hierarchy_acquisitions, key=...)`: the first key of the highest level. */
  function Highest(keys: seq<Key>): (r: Key)
    requires keys != [] && forall k :: k in keys ==> Hierarchical(k)
    ensures r in keys && forall k :: k in keys ==> KeyLevel(k) <= KeyLevel(r)
  {
    if |keys| == 1 then keys[0]
    else
      var rest := Highest(keys[1..]);
      if KeyLevel(keys[0]) >= KeyLevel(rest) then keys[0] else rest
  }

  /** `_validate_lock_hierarchy` without the line that reads two undefined names. */
  function Validate(held: seq<Key>, requested: Key): Verdict {
    if held == [] || !Hierarchical(requested) then Passed
    else
      var acquired := HierarchicalOnly(held);
      if acquired == [] then Passed
      else
        var top := Highest(acquired);
        if requested in acquired then Passed
        else if KeyLevel(requested) <= KeyLevel(top) then
          if DescendAllowed(CategoryOf(top).value, CategoryOf(requested).value) then Passed else Violation
        else Passed
  }

  /** `_validate_lock_hierarchy` as it stands: the undefined names are reached whenever a lock of the
      hierarchy is requested while another one is held. */
  function ValidateAsWritten(held: seq<Key>, requested: Key): Verdict {
    if held == [] || !Hierarchical(requested) || HierarchicalOnly(held) == [] then Passed
    else NameError
  }

  /** What the check enforces: a request in the hierarchy passes exactly when it re-enters a held lock or
      lies strictly above every hierarchy lock held. The descending whitelist never matters. */
  lemma PassesExactlyWhenAscending(held: seq<Key>, requested: Key)
    ensures Validate(held, requested) == Passed <==>
              || !Hierarchical(requested)
              || requested in held
              || forall k :: k in held && Hierarchical(k) ==> KeyLevel(k) < KeyLevel(requested)
    ensures ValidateAsWritten(held, requested) == Passed <==>
              || !Hierarchical(requested)
              || forall k :: k in held ==> !Hierarchical(k)
    ensures ValidateAsWritten(held, requested) == Passed ==> Validate(held, requested) == Passed
  {
    var acquired := HierarchicalOnly(held);
    if acquired != [] {
      assert acquired[0] in acquired;
      assert Highest(acquired) in acquired;
    }
  }

  // ---------------------------------------------------------------------------------------------
  // Categories of table keys
  // ---------------------------------------------------------------------------------------------

  type Table = string

  function ReadKey(c: Table): Key {
    "table_read:" + c
  }

  function WriteKey(c: Table): Key {
    "table_write:" + c
  }

  lemma NextPrefix(key: Key, i: nat)
    requires i < |PREFIXES|
    ensures FirstMatch(key, PREFIXES[i..]) ==
              if PREFIXES[i].0 <= key then Some(PREFIXES[i].1) else FirstMatch(key, PREFIXES[i + 1..])
  {
    assert PREFIXES[i..][0] == PREFIXES[i] && PREFIXES[i..][1..] == PREFIXES[i + 1..];
  }

  lemma FirstFour(key: Key)
    requires key != "" && key[0] !in {'p', 'd', 'b'}
    ensures CategoryOf(key) == FirstMatch(key, PREFIXES[4..])
  {
    assert PREFIXES[0..] == PREFIXES;
    NextPrefix(key, 0);
    NextPrefix(key, 1);
    NextPrefix(key, 2);
    NextPrefix(key, 3);
  }

  lemma TableKeys(c: Table)
    ensures CategoryOf(ReadKey(c)) == Some(TableRead) && CategoryOf(WriteKey(c)) == Some(TableWrite)
  {
    var r, w := ReadKey(c), WriteKey(c);
    FirstFour(r);
    FirstFour(w);
    assert r[..11] == "table_read:" && w[..12] == "table_write:";
    assert w[6] == 'w' && !("table_read:" <= w);
    NextPrefix(r, 4);
    NextPrefix(w, 4);
    NextPrefix(w, 5);
  }

  /** A key of category table_read or table_write names a table. */
  lemma {:induction false} OnlyTableKeys(key: Key, i: nat)
    requires i <= |PREFIXES|
    ensures FirstMatch(key, PREFIXES[i..]) == Some(TableRead) ==> "table_read:" <= key
    ensures FirstMatch(key, PREFIXES[i..]) == Some(TableWrite) ==> "table_write:" <= key
    decreases |PREFIXES| - i
  {
    if i < |PREFIXES| {
      NextPrefix(key, i);
      OnlyTableKeys(key, i + 1);
    }
  }

  lemma TableOf(key: Key) returns (c: Table)
    requires CategoryOf(key) in {Some(TableRead), Some(TableWrite)}
    ensures key == if CategoryOf(key) == Some(TableRead) then ReadKey(c) else WriteKey(c)
  {
    assert PREFIXES[0..] == PREFIXES;
    OnlyTableKeys(key, 0);
    c := if CategoryOf(key) == Some(TableRead) then key[11..] else key[12..];
  }

  /** A key of the hierarchy names a table, or lies between the two sides of the tables. */
  lemma KindOfKey(key: Key) returns (c: Table)
    requires Hierarchical(key)
    ensures key == ReadKey(c) || key == WriteKey(c) || -1 < KeyLevel(key) < 3
  {
    c := "";
    if CategoryOf(key) in {Some(TableRead), Some(TableWrite)} {
      c := TableOf(key);
    }
  }

  // ---------------------------------------------------------------------------------------------
  // Runs
  // ---------------------------------------------------------------------------------------------

  /** What a task has recorded: a lock of its own, or one side of a table's reader/writer lock. The hierarchy check
      sees only the key. */
  datatype Hold = Mutex(key: Key) | Reads(table: Table) | Writes(table: Table)

  function KeyOf(h: Hold): Key {
    match h
    case Mutex(k) => k
    case Reads(c) => ReadKey(c)
    case Writes(c) => WriteKey(c)
  }

  function Keys(holds: seq<Hold>): (r: seq<Key>)
    ensures forall k :: k in r <==> exists h :: h in holds && KeyOf(h) == k
  {
    if holds == [] then [] else [KeyOf(holds[0])] + Keys(holds[1..])
  }

  /** What a task waits for: a lock of its own, to be counted as a reader, the `write_lock` of a table, or, once it has
      that, the end of the table's readers. */
  datatype Wait = ForMutex(key: Key) | ForRead(table: Table) | ForWrite(table: Table) | ForReaders(table: Table)

  /** `held`: `_task_lock_state`; `waiting`: what each suspended task waits for; `writeLock`: who has the `write_lock`
      of a table; `leaked`: readers that were counted and then refused. */
  datatype State = State(held: map<Task, seq<Hold>>, waiting: map<Task, Wait>, writeLock: map<Table, Task>,
                         leaked: set<(Task, Table)>)

  const START := State(map[], map[], map[], {})

  function Held(s: State, task: Task): seq<Hold> {
    if task in s.held then s.held[task] else []
  }

  /** Without one occurrence of `h`. */
  function Drop(holds: seq<Hold>, h: Hold): (r: seq<Hold>)
    ensures forall x :: x in r ==> x in holds
    ensures forall x :: x in holds && x != h ==> x in r
  {
    if holds == [] then [] else if holds[0] == h then holds[1..] else [holds[0]] + Drop(holds[1..], h)
  }

  function Record(s: State, t: Task, h: Hold): State {
    s.(held := s.held[t := Held(s, t) + [h]])
  }

  function Unrecord(s: State, t: Task, h: Hold): State {
    s.(held := s.held[t := Drop(Held(s, t), h)])
  }

  predicate Owned(s: State, k: Key) {
    exists t :: t in s.held && Mutex(k) in s.held[t]
  }

  predicate Counted(s: State, t: Task, c: Table) {
    Reads(c) in Held(s, t) || (t, c) in s.leaked
  }

  predicate HasReaders(s: State, c: Table) {
    (exists t :: t in s.held && Reads(c) in s.held[t]) || exists p :: p in s.leaked && p.1 == c
  }

  predicate Marked(s: State, t: Task, c: Table) {
    t in s.waiting && s.waiting[t] in {ForWrite(c), ForReaders(c)}
  }

  predicate HasMarked(s: State, c: Table) {
    exists t :: t in s.waiting && Marked(s, t, c)
  }

  datatype Event =
    | Request(task: Task, key: Key)      // `acquire`: checked, then registered as waiting
    | Read(task: Task, table: Table)     // `table_read_lock`: nothing is checked before it waits
    | Write(task: Task, table: Table)    // `table_write_lock`: checked and recorded, then marked
    | Seize(task: Task)                  // a marked writer gets `write_lock` and polls for readers
    | Grant(task: Task)                  // the wait is over
    | GiveUp(task: Task)                 // timeout or cancellation
    | Release(task: Task, key: Key)
    | EndRead(task: Task, table: Table)
    | EndWrite(task: Task, table: Table)

  /** The state after `e`, or nothing when `e` cannot happen in `s`. A waiting task does nothing else. */
  function Next(priority: bool, s: State, e: Event): Option<State> {
    match e
    case Request(t, k) =>
      if t in s.waiting || k in Keys(Held(s, t)) || Validate(Keys(Held(s, t)), k) != Passed then None
      else Some(s.(waiting := s.waiting[t := ForMutex(k)]))
    case Read(t, c) =>
      if t in s.waiting then None else Some(s.(waiting := s.waiting[t := ForRead(c)]))
    case Write(t, c) =>
      if t in s.waiting || Validate(Keys(Held(s, t)), WriteKey(c)) != Passed then None
      else Some(Record(s, t, Writes(c)).(waiting := s.waiting[t := ForWrite(c)]))
    case Seize(t) =>
      if t !in s.waiting || !s.waiting[t].ForWrite? || s.waiting[t].table in s.writeLock then None
      else
        var c := s.waiting[t].table;
        Some(s.(writeLock := s.writeLock[c := t], waiting := s.waiting[t := ForReaders(c)]))
    case Grant(t) =>
      if t !in s.waiting then None
      else
        var s' := s.(waiting := s.waiting - {t});
        (match s.waiting[t]
         case ForMutex(k) => if Owned(s, k) then None else Some(Record(s', t, Mutex(k)))
         case ForRead(c) =>
           if c in s.writeLock || (priority && HasMarked(s, c)) then None
           else if Validate(Keys(Held(s, t)), ReadKey(c)) == Passed then Some(Record(s', t, Reads(c)))
           else Some(s'.(leaked := s.leaked + {(t, c)}))
         case ForWrite(c) => None
         case ForReaders(c) => if HasReaders(s, c) then None else Some(s'))
    case GiveUp(t) =>
      if t !in s.waiting then None
      else
        var s' := s.(waiting := s.waiting - {t});
        (match s.waiting[t]
         case ForWrite(c) => Some(Unrecord(s', t, Writes(c)))
         case ForReaders(c) =>
           Some(Unrecord(s', t, Writes(c)).(
                writeLock := if c in s.writeLock && s.writeLock[c] == t then s.writeLock - {c} else s.writeLock))
         case _ => Some(s'))
    case Release(t, k) =>
      if t in s.waiting || Mutex(k) !in Held(s, t) then None else Some(Unrecord(s, t, Mutex(k)))
    case EndRead(t, c) =>
      if t in s.waiting || Reads(c) !in Held(s, t) then None else Some(Unrecord(s, t, Reads(c)))
    case EndWrite(t, c) =>
      if t in s.waiting || c !in s.writeLock || s.writeLock[c] != t then None
      else Some(Unrecord(s, t, Writes(c)).(writeLock := s.writeLock - {c}))
  }

  /** The state that a run of events leads to, if they can happen in this order. */
  function Reach(priority: bool, events: seq<Event>): Option<State> {
    if events == [] then Some(START)
    else
      match Reach(priority, events[..|events| - 1])
      case None => None
      case Some(s) => Next(priority, s, events[|events| - 1])
  }

  // ---------------------------------------------------------------------------------------------
  // What the locks promise
  // ---------------------------------------------------------------------------------------------

  /** `t` has the `write_lock` of the table and has seen its readers out. */
  predicate IsWriting(s: State, t: Task, c: Table) {
    c in s.writeLock && s.writeLock[c] == t && !(t in s.waiting && s.waiting[t] == ForReaders(c))
  }

  ghost predicate OneOwner(s: State) {
    forall t, u, k :: Mutex(k) in Held(s, t) && Mutex(k) in Held(s, u) ==> t == u
  }

  ghost predicate PollersHaveTheLock(s: State) {
    forall t :: t in s.waiting && s.waiting[t].ForReaders? ==>
                  s.waiting[t].table in s.writeLock && s.writeLock[s.waiting[t].table] == t
  }

  ghost predicate WritersAreAlone(s: State) {
    forall t, c :: IsWriting(s, t, c) ==> !HasReaders(s, c)
  }

  lemma OwnedBeforeOrGranted(priority: bool, s: State, e: Event, t: Task, k: Key)
    requires Next(priority, s, e).Some? && Mutex(k) in Held(Next(priority, s, e).value, t)
    ensures Mutex(k) in Held(s, t) || (e == Grant(t) && !Owned(s, k))
  {
  }

  lemma StepKeepsOneOwner(priority: bool, s: State, e: Event)
    requires OneOwner(s) && Next(priority, s, e).Some?
    ensures OneOwner(Next(priority, s, e).value)
  {
    var s' := Next(priority, s, e).value;
    forall t, u, k | Mutex(k) in Held(s', t) && Mutex(k) in Held(s', u) ensures t == u {
      OwnedBeforeOrGranted(priority, s, e, t, k);
      OwnedBeforeOrGranted(priority, s, e, u, k);
      assert Mutex(k) in Held(s, t) || Mutex(k) in Held(s, u) ==> Owned(s, k);
    }
  }

  lemma StepKeepsPollers(priority: bool, s: State, e: Event)
    requires PollersHaveTheLock(s) && Next(priority, s, e).Some?
    ensures PollersHaveTheLock(Next(priority, s, e).value)
  {
  }

  lemma StepKeepsWritersAlone(priority: bool, s: State, e: Event)
    requires PollersHaveTheLock(s) && WritersAreAlone(s) && Next(priority, s, e).Some?
    ensures WritersAreAlone(Next(priority, s, e).value)
  {
    var s' := Next(priority, s, e).value;
    forall t, c | IsWriting(s', t, c) ensures !HasReaders(s', c) {
      assert IsWriting(s, t, c) || (e == Grant(t) && s.waiting[t] == ForReaders(c));
    }
  }

  lemma {:induction false} RunKeepsLocksExclusive(priority: bool, events: seq<Event>)
    requires Reach(priority, events).Some?
    ensures var s := Reach(priority, events).value; OneOwner(s) && PollersHaveTheLock(s) && WritersAreAlone(s)
  {
    if events != [] {
      var before, e := events[..|events| - 1], events[|events| - 1];
      RunKeepsLocksExclusive(priority, before);
      var s := Reach(priority, before).value;
      StepKeepsOneOwner(priority, s, e);
      StepKeepsPollers(priority, s, e);
      StepKeepsWritersAlone(priority, s, e);
    }
  }

  lemma CountedIsReader(s: State, t: Task, c: Table)
    requires Counted(s, t, c)
    ensures HasReaders(s, c)
  {
    assert (t, c) in s.leaked ==> (t, c).1 == c;
  }

  /** In every run, inside the hierarchy or not, no lock is recorded by two tasks, and while a task writes a table no
      other task writes it and none is counted as its reader. */
  lemma LocksExclude(priority: bool, events: seq<Event>, t: Task, u: Task, k: Key, c: Table)
    requires Reach(priority, events).Some? && t != u
    ensures var s := Reach(priority, events).value;
            && !(Mutex(k) in Held(s, t) && Mutex(k) in Held(s, u))
            && (IsWriting(s, t, c) ==> !IsWriting(s, u, c) && !Counted(s, u, c))
  {
    RunKeepsLocksExclusive(priority, events);
    if Counted(Reach(priority, events).value, u, c) {
      CountedIsReader(Reach(priority, events).value, u, c);
    }
  }

  lemma StepKeepsLeaked(priority: bool, s: State, e: Event)
    requires Next(priority, s, e).Some?
    ensures s.leaked <= Next(priority, s, e).value.leaked
  {
  }

  lemma {:induction false} LeakLasts(priority: bool, events: seq<Event>, i: nat, p: (Task, Table))
    requires i <= |events| && Reach(priority, events).Some?
    requires Reach(priority, events[..i]).Some? ==> p in Reach(priority, events[..i]).value.leaked
    ensures p in Reach(priority, events).value.leaked
  {
    if i == |events| {
      assert events[..i] == events;
    } else {
      var before := events[..|events| - 1];
      assert before[..i] == events[..i];
      LeakLasts(priority, before, i, p);
      StepKeepsLeaked(priority, Reach(priority, before).value, events[|events| - 1]);
    }
  }

  lemma {:induction false} ReachedBefore(priority: bool, events: seq<Event>, i: nat)
    requires i < |events| && Reach(priority, events).Some?
    ensures Reach(priority, events[..i]).Some?
    ensures Reach(priority, events[..i + 1]) == Next(priority, Reach(priority, events[..i]).value, events[i])
  {
    var before := events[..|events| - 1];
    if i < |before| {
      ReachedBefore(priority, before, i);
      assert before[..i] == events[..i] && before[..i + 1] == events[..i + 1];
    } else {
      assert events[..i + 1] == events;
    }
  }

  /** A reader that is let in is counted before it is checked. When the check refuses it, it stays counted for the rest
      of the run, and no writer of the table is ever through with its readers. */
  lemma RefusedReaderStarvesWriters(priority: bool, events: seq<Event>, i: nat, t: Task, c: Table, writer: Task)
    requires Reach(priority, events).Some? && i < |events| && events[i] == Grant(t)
    requires Reach(priority, events[..i]).Some?
    requires var s := Reach(priority, events[..i]).value;
             t in s.waiting && s.waiting[t] == ForRead(c) && Validate(Keys(Held(s, t)), ReadKey(c)) != Passed
    ensures var s := Reach(priority, events).value;
            && Counted(s, t, c)
            && (writer in s.waiting && s.waiting[writer] == ForReaders(c) ==> Next(priority, s, Grant(writer)) == None)
  {
    ReachedBefore(priority, events, i);
    LeakLasts(priority, events, i + 1, (t, c));
    CountedIsReader(Reach(priority, events).value, t, c);
  }

  /** The same locks held, awaited and leaked. */
  ghost predicate Alike(s: State, s': State) {
    && s.waiting == s'.waiting && s.writeLock == s'.writeLock && s.leaked == s'.leaked
    && forall t :: multiset(Held(s, t)) == multiset(Held(s', t))
  }

  lemma {:induction false} DropTakesOne(holds: seq<Hold>, h: Hold)
    requires h in holds
    ensures multiset(Drop(holds, h)) == multiset(holds) - multiset{h}
  {
    assert holds == [holds[0]] + holds[1..];
    if holds[0] != h {
      DropTakesOne(holds[1..], h);
    }
  }

  lemma UnrecordUndoesRecord(s: State, t: Task, h: Hold)
    ensures Alike(Unrecord(Record(s, t, h), t, h), s)
  {
    DropTakesOne(Held(s, t) + [h], h);
  }

  /** Giving up undoes asking: of a request that is abandoned nothing is left. */
  lemma GivingUpUndoesAsking(priority: bool, s: State, e: Event)
    requires (e.Request? || e.Read? || e.Write?) && Next(priority, s, e).Some?
    ensures var s1, t := Next(priority, s, e).value, e.task;
            Next(priority, s1, GiveUp(t)).Some? && Alike(Next(priority, s1, GiveUp(t)).value, s)
  {
    var s1, t := Next(priority, s, e).value, e.task;
    assert s1.waiting - {t} == s.waiting;
    if e.Write? {
      UnrecordUndoesRecord(s, t, Writes(e.table));
      assert Next(priority, s1, GiveUp(t)) == Some(Unrecord(Record(s, t, Writes(e.table)), t, Writes(e.table)));
    } else {
      assert Next(priority, s1, GiveUp(t)) == Some(s);
    }
  }

  /** Also when a writer has `write_lock` by then. */
  lemma GivingUpUndoesSeizing(priority: bool, s: State, t: Task)
    requires Next(priority, s, Seize(t)).Some?
    ensures Next(priority, Next(priority, s, Seize(t)).value, GiveUp(t)) == Next(priority, s, GiveUp(t))
  {
    var s1 := Next(priority, s, Seize(t)).value;
    assert s1.waiting - {t} == s.waiting - {t} && s1.writeLock - {s.waiting[t].table} == s.writeLock;
  }

  lemma TakesMutex(priority: bool, s: State, t: Task, k: Key)
    requires Next(priority, s, Request(t, k)).Some? && !Owned(s, k)
    ensures Next(priority, Next(priority, s, Request(t, k)).value, Grant(t)) == Some(Record(s, t, Mutex(k)))
  {
    assert s.waiting[t := ForMutex(k)] - {t} == s.waiting;
  }

  /** Releasing undoes taking a lock of its own, */
  lemma ReleasingUndoesTaking(priority: bool, s: State, t: Task, k: Key)
    requires Next(priority, s, Request(t, k)).Some? && !Owned(s, k)
    ensures Next(priority, Next(priority, s, Request(t, k)).value, Grant(t)).Some?
    ensures var s1 := Next(priority, Next(priority, s, Request(t, k)).value, Grant(t)).value;
            && Held(s1, t) == Held(s, t) + [Mutex(k)] && Next(priority, s1, Release(t, k)).Some?
            && Alike(Next(priority, s1, Release(t, k)).value, s)
  {
    TakesMutex(priority, s, t, k);
    UnrecordUndoesRecord(s, t, Mutex(k));
  }

  lemma TakesRead(priority: bool, s: State, t: Task, c: Table)
    requires t !in s.waiting && c !in s.writeLock && !(priority && HasMarked(s, c))
    requires Validate(Keys(Held(s, t)), ReadKey(c)) == Passed
    ensures Next(priority, s, Read(t, c)).Some?
    ensures Next(priority, Next(priority, s, Read(t, c)).value, Grant(t)) == Some(Record(s, t, Reads(c)))
  {
    var s1 := s.(waiting := s.waiting[t := ForRead(c)]);
    assert s1.waiting - {t} == s.waiting;
    assert forall u :: Marked(s1, u, c) ==> Marked(s, u, c);
  }

  /** as does the end of a read that was entered, */
  lemma EndUndoesReading(priority: bool, s: State, t: Task, c: Table)
    requires t !in s.waiting && c !in s.writeLock && !(priority && HasMarked(s, c))
    requires Validate(Keys(Held(s, t)), ReadKey(c)) == Passed
    ensures Next(priority, s, Read(t, c)).Some?
    ensures Next(priority, Next(priority, s, Read(t, c)).value, Grant(t)).Some?
    ensures var s1 := Next(priority, Next(priority, s, Read(t, c)).value, Grant(t)).value;
            && Counted(s1, t, c) && Next(priority, s1, EndRead(t, c)).Some?
            && Alike(Next(priority, s1, EndRead(t, c)).value, s)
  {
    TakesRead(priority, s, t, c);
    UnrecordUndoesRecord(s, t, Reads(c));
  }

  lemma TakesWrite(priority: bool, s: State, t: Task, c: Table)
    requires Next(priority, s, Write(t, c)).Some? && c !in s.writeLock && !HasReaders(s, c)
    ensures Next(priority, Next(priority, s, Write(t, c)).value, Seize(t)).Some?
    ensures Next(priority, Next(priority, Next(priority, s, Write(t, c)).value, Seize(t)).value, Grant(t)) ==
              Some(Record(s, t, Writes(c)).(writeLock := s.writeLock[c := t]))
  {
    var s1 := Record(s, t, Writes(c)).(waiting := s.waiting[t := ForWrite(c)]);
    var s2 := s1.(writeLock := s.writeLock[c := t], waiting := s1.waiting[t := ForReaders(c)]);
    assert Next(priority, s1, Seize(t)) == Some(s2);
    assert forall u :: u in s2.held && Reads(c) in s2.held[u] ==> u in s.held && Reads(c) in s.held[u];
    assert s2.waiting - {t} == s.waiting;
  }

  /** and the end of a write. */
  lemma EndUndoesWriting(priority: bool, s: State, t: Task, c: Table)
    requires Next(priority, s, Write(t, c)).Some? && c !in s.writeLock && !HasReaders(s, c)
    ensures Next(priority, Next(priority, s, Write(t, c)).value, Seize(t)).Some?
    ensures Next(priority, Next(priority, Next(priority, s, Write(t, c)).value, Seize(t)).value, Grant(t)).Some?
    ensures var s1 := Next(priority, Next(priority, Next(priority, s, Write(t, c)).value, Seize(t)).value,
                           Grant(t)).value;
            && IsWriting(s1, t, c) && Next(priority, s1, EndWrite(t, c)).Some?
            && Alike(Next(priority, s1, EndWrite(t, c)).value, s)
  {
    TakesWrite(priority, s, t, c);
    UnrecordUndoesRecord(s, t, Writes(c));
    assert s.writeLock[c := t] - {c} == s.writeLock;
  }

  // ---------------------------------------------------------------------------------------------
  // Runs inside the hierarchy
  // ---------------------------------------------------------------------------------------------

  /** Only table_read, player, pot, deck and table_write locks are asked for. */
  ghost predicate StaysInHierarchy(events: seq<Event>) {
    forall e :: e in events && e.Request? ==> Hierarchical(e.key)
  }

  ghost predicate HoldsInHierarchy(s: State) {
    forall t, h :: t in s.held && h in s.held[t] ==> Hierarchical(KeyOf(h))
  }

  /** `requested` is a lock of the hierarchy strictly above everything in `held`. */
  ghost predicate Above(requested: Key, held: seq<Hold>) {
    && Hierarchical(requested)
    && forall h :: h in held ==> Hierarchical(KeyOf(h)) && KeyLevel(KeyOf(h)) < KeyLevel(requested)
  }

  /** Every task that waits for a lock of its own waits above everything it holds. */
  ghost predicate WaitsUpward(s: State) {
    HoldsInHierarchy(s) && forall t :: t in s.waiting && s.waiting[t].ForMutex? ==> Above(s.waiting[t].key, Held(s, t))
  }

  /** A step changes what a waiting task holds only if it is that task's own request for a table. */
  lemma WaitingKeepHolding(priority: bool, s: State, e: Event, t: Task)
    requires Next(priority, s, e).Some? && t in Next(priority, s, e).value.waiting
    requires !((e.Request? || e.Read? || e.Write?) && e.task == t)
    ensures t in s.waiting
    ensures var now := Next(priority, s, e).value.waiting[t];
            now == s.waiting[t] || (s.waiting[t].ForWrite? && now == ForReaders(s.waiting[t].table))
    ensures Held(Next(priority, s, e).value, t) == Held(s, t)
  {
  }

  lemma PassedMeansAbove(held: seq<Hold>, k: Key)
    requires forall h :: h in held ==> Hierarchical(KeyOf(h))
    requires Hierarchical(k) && k !in Keys(held) && Validate(Keys(held), k) == Passed
    ensures Above(k, held)
  {
    PassesExactlyWhenAscending(Keys(held), k);
    forall h | h in held ensures KeyLevel(KeyOf(h)) < KeyLevel(k) {
      assert KeyOf(h) in Keys(held);
    }
  }

  lemma StepKeepsHolds(priority: bool, s: State, e: Event)
    requires WaitsUpward(s) && Next(priority, s, e).Some?
    ensures HoldsInHierarchy(Next(priority, s, e).value)
  {
    match e
    case Write(_, c) => TableKeys(c);
    case Grant(t) =>
      if s.waiting[t].ForRead? {
        TableKeys(s.waiting[t].table);
      }
    case _ =>
  }

  lemma StepKeepsWaitsUpward(priority: bool, s: State, e: Event)
    requires WaitsUpward(s) && Next(priority, s, e).Some? && (e.Request? ==> Hierarchical(e.key))
    ensures WaitsUpward(Next(priority, s, e).value)
  {
    var s' := Next(priority, s, e).value;
    StepKeepsHolds(priority, s, e);
    forall t | t in s'.waiting && s'.waiting[t].ForMutex? ensures Above(s'.waiting[t].key, Held(s', t)) {
      if e.Request? && e.task == t {
        PassedMeansAbove(Held(s, t), e.key);
      } else {
        WaitingKeepHolding(priority, s, e, t);
      }
    }
  }

  lemma {:induction false} RunKeepsWaitsUpward(priority: bool, events: seq<Event>)
    requires Reach(priority, events).Some? && StaysInHierarchy(events)
    ensures WaitsUpward(Reach(priority, events).value)
  {
    if events != [] {
      var before := events[..|events| - 1];
      RunKeepsWaitsUpward(priority, before);
      assert events[|events| - 1] in events;
      StepKeepsWaitsUpward(priority, Reach(priority, before).value, events[|events| - 1]);
    }
  }

  // ---------------------------------------------------------------------------------------------
  // The detector
  // ---------------------------------------------------------------------------------------------

  ghost predicate Holds(s: State, task: Task, key: Key) {
    key in Keys(Held(s, task))
  }

  /** What the detector sees: only `acquire` registers its wait. `g` has an edge only from such a task to another one
      that has recorded the key it waits for, and it has that edge whenever only one task has. */
  ghost predicate WaitsFor(s: State, g: Graph) {
    && (forall t, o :: t in g && o in g[t] ==>
          t in s.waiting && s.waiting[t].ForMutex? && o != t && Holds(s, o, s.waiting[t].key))
    && (forall t, o :: t in s.waiting && s.waiting[t].ForMutex? && o != t && Holds(s, o, s.waiting[t].key)
                       && (forall p :: Holds(s, p, s.waiting[t].key) ==> p == o) ==>
          o in Successors(g, t))
  }

  /** `holder_lookup`: some task that has recorded each recorded key. */
  method HolderLookup(s: State) returns (holder: map<Key, Task>)
    ensures forall k :: k in holder ==> Holds(s, holder[k], k)
    ensures forall t, k :: Holds(s, t, k) ==> k in holder
  {
    holder := map[];
    var todo := s.held.Keys;
    while todo != {}
      invariant todo <= s.held.Keys
      invariant forall k :: k in holder ==> Holds(s, holder[k], k)
      invariant forall t, k :: t in s.held.Keys - todo && Holds(s, t, k) ==> k in holder
      decreases todo
    {
      var task :| task in todo;
      todo := todo - {task};
      var keys := Keys(s.held[task]);
      for i := 0 to |keys|
        invariant forall k :: k in holder ==> Holds(s, holder[k], k)
        invariant forall t, k :: t in s.held.Keys - todo - {task} && Holds(s, t, k) ==> k in holder
        invariant forall k :: k in keys[..i] ==> k in holder
      {
        if keys[i] !in holder {
          holder := holder[keys[i] := task];
        }
      }
      assert keys[..|keys|] == keys;
    }
  }

  /** `detect_deadlock`: builds the wait-for graph and hands it to the cycle search. */
  method DetectDeadlock(s: State, name: Task -> string) returns (cycles: seq<seq<string>>, graph: Graph)
    ensures WaitsFor(s, graph)
    ensures cycles != [] <==> HasCycle(graph)
    ensures WaitsUpward(s) ==> cycles == []
  {
    var holder := HolderLookup(s);
    graph := map[];
    var todo := s.waiting.Keys;
    while todo != {}
      invariant todo <= s.waiting.Keys
      invariant forall t :: t in todo ==> t !in graph
      invariant forall t, o :: t in graph && o in graph[t] ==>
                  t in s.waiting && s.waiting[t].ForMutex? && o != t && Holds(s, o, s.waiting[t].key)
      invariant forall t, o :: t in s.waiting.Keys - todo && s.waiting[t].ForMutex? && o != t
                               && Holds(s, o, s.waiting[t].key)
                               && (forall p :: Holds(s, p, s.waiting[t].key) ==> p == o) ==>
                  o in Successors(graph, t)
      decreases todo
    {
      var task :| task in todo;
      todo := todo - {task};
      if s.waiting[task].ForMutex? {
        var key := s.waiting[task].key;
        if key in holder && holder[key] != task {
          assert Holds(s, holder[key], key);
          graph := graph[task := {holder[key]}];
        }
      }
    }
    cycles := DetectCycles(graph, name);
    if WaitsUpward(s) {
      UpwardWaitsAreAcyclic(s, graph);
    }
  }

  /** Along a closed walk the awaited levels would have to rise for ever. */
  lemma LevelsRise(s: State, g: Graph, w: seq<Task>, i: nat)
    requires WaitsUpward(s) && WaitsFor(s, g) && ClosedWalk(g, w) && i < |w|
    ensures forall j :: 0 <= j <= i ==>
              w[j] in s.waiting && s.waiting[w[j]].ForMutex? && Hierarchical(s.waiting[w[j]].key)
    ensures KeyLevel(s.waiting[w[i]].key) >= KeyLevel(s.waiting[w[0]].key) + i
  {
    assert w[0 + 1] in Successors(g, w[0]);
    if i > 0 {
      LevelsRise(s, g, w, i - 1);
      assert w[(i - 1) + 1] in Successors(g, w[i - 1]);
      assert Holds(s, w[i], s.waiting[w[i - 1]].key);
      if i < |w| - 1 {
        assert w[i + 1] in Successors(g, w[i]);
      }
    }
  }

  lemma UpwardWaitsAreAcyclic(s: State, g: Graph)
    requires WaitsUpward(s) && WaitsFor(s, g)
    ensures !HasCycle(g)
  {
    if w :| ClosedWalk(g, w) {
      LevelsRise(s, g, w, |w| - 1);
    }
  }

  /** In every state of every run that stays inside the hierarchy, the graph that the detector builds has no cycle. */
  lemma DetectorGraphIsAcyclic(priority: bool, events: seq<Event>, g: Graph)
    requires Reach(priority, events).Some? && StaysInHierarchy(events) && WaitsFor(Reach(priority, events).value, g)
    ensures !HasCycle(g)
  {
    RunKeepsWaitsUpward(priority, events);
    UpwardWaitsAreAcyclic(Reach(priority, events).value, g);
  }

  lemma MatchedAt(key: Key, i: nat)
    requires i < |PREFIXES| && PREFIXES[i].0 <= key
    requires forall j :: 0 <= j < i ==> !(PREFIXES[j].0 <= key)
    ensures CategoryOf(key) == Some(PREFIXES[i].1)
  {
    assert PREFIXES[0..] == PREFIXES;
    for j := 0 to i
      invariant CategoryOf(key) == FirstMatch(key, PREFIXES[j..])
    {
      NextPrefix(key, j);
    }
    NextPrefix(key, i);
  }

  /** No other prefix fits these keys. */
  lemma FirstLetters(id: string)
    ensures var pot, stage := "pot:" + id, "stage:" + id;
            && pot[0] == 'p' && pot[1] == 'o' && stage[0] == 's'
            && ("deck:" + id)[0] == 'd' && ("betting:" + id)[0] == 'b' && ("engine_stage:" + id)[0] == 'e'
            && ("chat:" + id)[0] == 'c' && ("wallet:" + id)[0] == 'w'
  {
  }

  lemma LowKeys(id: string)
    ensures CategoryOf("player:" + id) == Some(Player)
    ensures CategoryOf("pot:" + id) == Some(Pot)
    ensures CategoryOf("deck:" + id) == Some(Deck)
    ensures CategoryOf("betting:" + id) == Some(Betting)
  {
    FirstLetters(id);
    MatchedAt("player:" + id, 0);
    MatchedAt("pot:" + id, 1);
    MatchedAt("deck:" + id, 2);
    MatchedAt("betting:" + id, 3);
  }

  lemma StageKeys(id: string)
    ensures CategoryOf("stage:" + id) == Some(EngineStage)
    ensures CategoryOf("engine_stage:" + id) == Some(EngineStage)
  {
    FirstLetters(id);
    MatchedAt("stage:" + id, 6);
    MatchedAt("engine_stage:" + id, 7);
  }

  lemma ChatKeys(id: string)
    ensures CategoryOf("chat:" + id) == Some(Chat)
  {
    FirstLetters(id);
    MatchedAt("chat:" + id, 8);
  }

  lemma WalletKeys(id: string)
    ensures CategoryOf("wallet:" + id) == Some(Wallet)
  {
    FirstLetters(id);
    MatchedAt("wallet:" + id, 11);
  }

  /** The hierarchy from bottom to top, for any ids: reading a table, a player, a pot, a deck, writing a table. The
      locks of a betting round, of a stage, of a chat and of a wallet are not part of it. */
  lemma LevelsOfTheHierarchy(id: string)
    ensures Hierarchical("table_read:" + id) && KeyLevel("table_read:" + id) == -1
    ensures Hierarchical("player:" + id) && KeyLevel("player:" + id) == 0
    ensures Hierarchical("pot:" + id) && KeyLevel("pot:" + id) == 1
    ensures Hierarchical("deck:" + id) && KeyLevel("deck:" + id) == 2
    ensures Hierarchical("table_write:" + id) && KeyLevel("table_write:" + id) == 3
    ensures !Hierarchical("betting:" + id) && !Hierarchical("stage:" + id) && !Hierarchical("chat:" + id)
    ensures !Hierarchical("wallet:" + id) && !Hierarchical("engine_stage:" + id)
  {
    TableKeys(id);
    LowKeys(id);
    StageKeys(id);
    ChatKeys(id);
    WalletKeys(id);
  }

  /** So a betting-round lock has no place in the hierarchy map, a player lock has. */
  lemma BettingIsOutside()
    ensures !Hierarchical("betting:7") && Hierarchical("player:7")
  {
    LevelsOfTheHierarchy("7");
    assert "betting:" + "7" == "betting:7" && "player:" + "7" == "player:7";
  }
}
