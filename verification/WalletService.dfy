/** Chip reservations of the two-phase commit (pokerapp/wallet_service.py) over an atomic Redis and a wallet
    repository, both of which may fail before or after a call has taken effect. */
module WalletService {
  import opened Basics

  datatype Status = Pending | Committed | RolledBack

  /** A reservation. `refunds` counts the credits made for it, `owed` the chips sent to the dead-letter queue,
      `payments` both kinds of repayment together, and `watched` says whether its watchdog is still to fire. */
  datatype Record = Record(account: nat, amount: nat, status: Status, refunds: nat, owed: nat, payments: nat,
                           watched: bool)

  /** A reservation as it is made. */
  function Fresh(account: nat, amount: nat): Record {
    Record(account, amount, Pending, 0, 0, 0, true)
  }

  /** What may go wrong in one rollback: the script, the loading of the record, the credit, the queue. */
  datatype RollbackFaults = RollbackFaults(script: Fault, loads: bool, credit: Fault, queues: bool)

  /** Replies of the two scripts. */
  datatype Reply = Done | Compensated | StatusWas(status: Status)

  // ---------------------------------------------------------------------------------------------
  // One reservation
  // ---------------------------------------------------------------------------------------------

  /** `_COMMIT_RESERVATION_SCRIPT` on an existing reservation. */
  function CommitScript(status: Status): (Status, Reply) {
    if status == Pending then (Committed, Done) else (status, StatusWas(status))
  }

  /** `_ROLLBACK_RESERVATION_SCRIPT` on an existing reservation: a reservation that was rolled back before and
      one that is rolled back now give the same reply. */
  function RollbackScript(status: Status, allowCommitted: bool): (Status, Reply) {
    match status
    case RolledBack => (RolledBack, StatusWas(RolledBack))
    case Committed => if allowCommitted then (RolledBack, Compensated) else (Committed, StatusWas(Committed))
    case Pending => (RolledBack, StatusWas(RolledBack))
  }

  /** `commit_reservation` */
  function CommitRecord(r: Record, fault: Fault): (Record, bool) {
    var (status, reply) := CommitScript(r.status);
    match fault
    case Lost => (r, false)
    case Late => (r.(status := status), false)
    case Fine =>
      var ok := reply == Done || reply == StatusWas(Committed);
      (r.(status := status, watched := r.watched && !ok), ok)
  }

  /** How often a rollback that gets as far as crediting pays the chips out, to the wallet or to the queue. */
  function Payments(f: RollbackFaults): nat {
    if f.script != Fine || !f.loads then 0
    else (if f.credit == Lost then 0 else 1) + (if f.credit != Fine && f.queues then 1 else 0)
  }

  /** `_credit_reservation_amount` */
  function Credit(r: Record, f: RollbackFaults): Record {
    if !f.loads then r
    else r.(refunds := r.refunds + (if f.credit == Lost then 0 else 1),
            owed := r.owed + (if f.credit != Fine && f.queues then r.amount else 0),
            payments := r.payments + (if f.credit == Lost then 0 else 1)
                                   + (if f.credit != Fine && f.queues then 1 else 0))
  }

  /** The script of a rollback, and whether its reply lets the rollback go on to the credit. */
  function ScriptRecord(r: Record, allowCommitted: bool, script: Fault): (Record, bool) {
    var (status, reply) := RollbackScript(r.status, allowCommitted);
    (if script == Lost then r else r.(status := status),
     script == Fine && (reply == StatusWas(RolledBack) || reply == Compensated))
  }

  /** `rollback_reservation`, when nothing else happens to the reservation meanwhile. */
  function RollbackRecord(r: Record, allowCommitted: bool, f: RollbackFaults): (Record, bool) {
    var (scripted, goesOn) := ScriptRecord(r, allowCommitted, f.script);
    if goesOn then (Credit(scripted, f).(watched := false), true) else (scripted, false)
  }

  /** `_auto_rollback`, which runs at most once and not after it was cancelled. */
  function Fire(r: Record, f: RollbackFaults): Record {
    if r.watched then RollbackRecord(r, false, f).0.(watched := false) else r
  }

  /** `rollback_reservation` when the watchdog fires, if it does, between the script and the cancelling of the
      watchdog at the end. */
  function RollbackAround(r: Record, allowCommitted: bool, f: RollbackFaults, during: Option<RollbackFaults>)
    : (Record, bool)
  {
    var (scripted, goesOn) := ScriptRecord(r, allowCommitted, f.script);
    if !goesOn then (scripted, false)
    else
      var meanwhile := if during.Some? then Fire(scripted, during.value) else scripted;
      (Credit(meanwhile, f).(watched := false), true)
  }

  /** The chips of a reservation that are in no wallet: held by it or waiting in the queue. */
  function Value(r: Record): nat {
    (if r.status == RolledBack then 0 else r.amount) + r.owed
  }

  /** Such a rollback pays exactly once: the credit works, or it fails and the queue takes over, or it raises
      after its effect and the queue does not take the chips as well. */
  predicate PaysOnce(f: RollbackFaults) {
    && f.script == Fine && f.loads
    && (f.credit == Fine || (f.credit == Lost && f.queues) || (f.credit == Late && !f.queues))
  }

  /** The faults under which a rollback neither creates nor destroys chips: it does not reach the reservation or
      is refused by it; or it takes the chips out and pays them once; or they were out before and none are paid. */
  predicate KeepsChips(r: Record, allowCommitted: bool, f: RollbackFaults) {
    || r.amount == 0
    || f.script == Lost
    || (r.status == Committed && !allowCommitted)
    || (r.status != RolledBack && PaysOnce(f))
    || (r.status == RolledBack && (f.script == Late || !f.loads || (f.credit == Lost && !f.queues)))
  }

  /** A rollback keeps the chips of wallet, reservation and queue together exactly under these faults. Without
      any fault that means: unless the reservation was rolled back before. */
  lemma RollbackIsExact(r: Record, allowCommitted: bool, f: RollbackFaults)
    ensures var r' := RollbackRecord(r, allowCommitted, f).0;
            && r'.amount == r.amount && r'.account == r.account
            && r.amount * (r'.refunds - r.refunds) + r'.owed - r.owed == r.amount * (r'.payments - r.payments)
            && (r.amount * (r'.refunds - r.refunds) + Value(r') == Value(r) <==> KeepsChips(r, allowCommitted, f))
            && (r.amount > 0 && f == RollbackFaults(Fine, true, Fine, true) ==>
                  (KeepsChips(r, allowCommitted, f) <==> r.status != RolledBack))
  {
    var r' := RollbackRecord(r, allowCommitted, f).0;
    assert r'.refunds - r.refunds == 0 || r'.refunds - r.refunds == 1;
    assert r'.payments - r.payments == 0 || r'.payments - r.payments == 1 || r'.payments - r.payments == 2;
  }

  // ---------------------------------------------------------------------------------------------
  // All wallets, all reservations, and the rollbacks under way
  // ---------------------------------------------------------------------------------------------

  /** What a rollback does next: every stage ends at an await, where others get their turn. */
  datatype Stage = Loading | Paying | Queueing | Ending | Over

  /** A rollback whose script let it go on. `due` says that this script took the chips out and that they are neither
      paid nor lost yet; a script that finds them taken out replies the same, but nothing is due then. */
  datatype Refund = Refund(id: nat, watchdog: bool, due: bool, stage: Stage)

  /** Reservation ids are fresh, so the n-th reservation is simply number n. */
  datatype Bank = Bank(balances: seq<int>, records: seq<Record>, refunds: seq<Refund>)

  /** `seen` is the balance that the query of a reservation returned, if it did; by the time of the debit the
      balance may be another. From `Load` on, the number is that of the rollback. */
  datatype Event =
    | Reserve(account: nat, amount: int, seen: Option<int>, debit: Fault, created: bool, refund: Fault)
    | Commit(id: nat, fault: Fault)
    | Script(id: nat, allowCommitted: bool, script: Fault)
    | Wake(id: nat, script: Fault)           // the script of the watchdog's rollback
    | Load(number: nat, loads: bool)
    | Pay(number: nat, credit: Fault)
    | Enqueue(number: nat, queues: bool)
    | End(number: nat)                       // the watchdog is cancelled, wherever it is

  function Deposit(balances: seq<int>, account: nat, amount: int): (r: seq<int>)
    ensures |r| == |balances|
  {
    if account < |balances| then balances[account := balances[account] + amount] else balances
  }

  /** `_cancel_watchdog`: one that sleeps does not wake, and one that is under way stops where it is. */
  function Cancelled(b: Bank, id: nat): Bank
    requires id < |b.records|
  {
    b.(records := b.records[id := b.records[id].(watched := false)], refunds := Stopped(b.refunds, id))
  }

  function Stopped(refunds: seq<Refund>, id: nat): (r: seq<Refund>)
    ensures |r| == |refunds|
    ensures forall j :: 0 <= j < |refunds| ==>
              r[j] == if refunds[j].id == id && refunds[j].watchdog
                      then refunds[j].(due := false, stage := Over) else refunds[j]
  {
    if refunds == [] then []
    else
      [if refunds[0].id == id && refunds[0].watchdog then refunds[0].(due := false, stage := Over) else refunds[0]]
      + Stopped(refunds[1..], id)
  }

  /** A rollback starts with its script. */
  function Started(b: Bank, id: nat, r: Record, allowCommitted: bool, script: Fault, watchdog: bool): (Bank, bool)
    requires id < |b.records|
  {
    var (scripted, goesOn) := ScriptRecord(r, allowCommitted, script);
    (b.(records := b.records[id := scripted],
        refunds := if goesOn then b.refunds + [Refund(id, watchdog, r.status != RolledBack, Loading)] else b.refunds),
     goesOn)
  }

  /** Rollback `k` is at this stage. */
  predicate IsAt(b: Bank, k: nat, stage: Stage) {
    k < |b.refunds| && b.refunds[k].stage == stage && b.refunds[k].id < |b.records|
  }

  function Moved(b: Bank, k: nat, due: bool, stage: Stage): Bank
    requires k < |b.refunds|
  {
    b.(refunds := b.refunds[k := b.refunds[k].(due := due, stage := stage)])
  }

  /** `wallet.credit`; a call that raises leads on to the queue. */
  function Paid(b: Bank, k: nat, credit: Fault): Bank
    requires IsAt(b, k, Paying)
  {
    var id := b.refunds[k].id;
    var r := b.records[id];
    if credit == Lost then Moved(b, k, b.refunds[k].due, Queueing)
    else
      var paid := Moved(b, k, false, if credit == Fine then Ending else Queueing);
      paid.(balances := Deposit(b.balances, r.account, r.amount),
            records := b.records[id := r.(refunds := r.refunds + 1, payments := r.payments + 1)])
  }

  /** `_handle_refund_failure` */
  function Queued(b: Bank, k: nat, queues: bool): Bank
    requires IsAt(b, k, Queueing)
  {
    var id := b.refunds[k].id;
    var r := b.records[id];
    Moved(b, k, false, Ending).(
      records := if queues then b.records[id := r.(owed := r.owed + r.amount, payments := r.payments + 1)]
                 else b.records)
  }

  /** The state after an event and what the call reports: whether a reservation or a commit succeeded, or whether a
      rollback goes on. */
  function Apply(b: Bank, e: Event): (Bank, bool) {
    match e
    case Reserve(account, amount, seen, debit, created, refund) =>
      if amount <= 0 then (b, true)
      else if seen == None || seen.value < amount || account >= |b.balances| || debit == Lost then (b, false)
      else
        var debited := b.(balances := b.balances[account := b.balances[account] - amount]);
        if debit == Late then (debited, false)
        else if created then
          (debited.(records := b.records + [Fresh(account, amount)]), true)
        else if refund == Lost then (debited, false)
        else (b, false)
    case Commit(id, fault) =>
      if id >= |b.records| then (b, false)
      else
        var (r, ok) := CommitRecord(b.records[id], fault);
        var b' := b.(records := b.records[id := r]);
        (if ok then Cancelled(b', id) else b', ok)
    case Script(id, allow, script) =>
      if id >= |b.records| then (b, false) else Started(b, id, b.records[id], allow, script, false)
    case Wake(id, script) =>
      if id >= |b.records| || !b.records[id].watched then (b, false)
      else Started(b, id, b.records[id].(watched := false), false, script, true)
    case Load(k, loads) =>
      if !IsAt(b, k, Loading) then (b, false)
      else (Moved(b, k, loads && b.refunds[k].due, if loads then Paying else Ending), true)
    case Pay(k, credit) => if !IsAt(b, k, Paying) then (b, false) else (Paid(b, k, credit), true)
    case Enqueue(k, queues) => if !IsAt(b, k, Queueing) then (b, false) else (Queued(b, k, queues), true)
    case End(k) =>
      if !IsAt(b, k, Ending) then (b, false) else (Cancelled(Moved(b, k, false, Over), b.refunds[k].id), true)
  }

  /** The states of a run, from the first on. */
  function After(b: Bank, events: seq<Event>): Bank {
    if events == [] then b else Apply(After(b, events[..|events| - 1]), events[|events| - 1]).0
  }

  /** What others do at the four awaits of a rollback after its script. */
  type Others = (seq<Event>, seq<Event>, seq<Event>, seq<Event>)

  /** The steps of rollback `k` after its script. */
  function PaidBack(b: Bank, k: nat, f: RollbackFaults, others: Others): Bank {
    var b1 := Apply(After(b, others.0), Load(k, f.loads)).0;
    var b2 := Apply(After(b1, others.1), Pay(k, f.credit)).0;
    var b3 := Apply(After(b2, others.2), Enqueue(k, f.queues)).0;
    Apply(After(b3, others.3), End(k)).0
  }

  /** A whole rollback that starts with `start`. */
  function Rollback(b: Bank, start: Event, f: RollbackFaults, others: Others): (Bank, bool) {
    var (b0, goesOn) := Apply(b, start);
    if !goesOn then (b0, false) else (PaidBack(b0, |b.refunds|, f, others), true)
  }

  class Service {
    var balances: seq<int>
    var records: seq<Record>
    var refunds: seq<Refund>

    ghost function View(): Bank
      reads this
    {
      Bank(balances, records, refunds)
    }

    method Repay(account: nat, amount: int)
      modifies this`balances
      ensures balances == Deposit(old(balances), account, amount)
    {
      if account < |balances| {
        balances := balances[account := balances[account] + amount];
      }
    }

    method ReserveChips(account: nat, amount: int, seen: Option<int>, debit: Fault, created: bool, refund: Fault)
      returns (ok: bool)
      modifies this
      ensures View() == Apply(old(View()), Reserve(account, amount, seen, debit, created, refund)).0
      ensures ok == Apply(old(View()), Reserve(account, amount, seen, debit, created, refund)).1
    {
      if amount <= 0 {
        return true;
      }
      if seen == None || seen.value < amount || account >= |balances| {
        return false;
      }
      if debit != Lost {
        balances := balances[account := balances[account] - amount];
      }
      if debit != Fine {
        return false;
      }
      if created {
        records := records + [Fresh(account, amount)];
        return true;
      }
      if refund != Lost {
        Repay(account, amount);
        assert balances == old(balances);
      }
      return false;
    }

    method CommitReservation(id: nat, fault: Fault) returns (ok: bool)
      modifies this
      ensures View() == Apply(old(View()), Commit(id, fault)).0 && ok == Apply(old(View()), Commit(id, fault)).1
    {
      if id >= |records| {
        return false;
      }
      var (status, reply) := CommitScript(records[id].status);
      if fault != Lost {
        records := records[id := records[id].(status := status)];
      }
      if fault != Fine || (reply != Done && reply != StatusWas(Committed)) {
        assert fault == Lost ==> old(records)[id := old(records)[id]] == old(records);
        return false;
      }
      CancelWatchdog(id);
      return true;
    }

    /** `_cancel_watchdog` */
    method CancelWatchdog(id: nat)
      requires id < |records|
      modifies this`records, this`refunds
      ensures View() == Cancelled(old(View()), id)
    {
      records := records[id := records[id].(watched := false)];
      refunds := Stopped(refunds, id);
    }

    /** The script of `rollback_reservation`. */
    method EvalRollback(id: nat, allowCommitted: bool, script: Fault, watchdog: bool) returns (goesOn: bool)
      requires id < |records|
      modifies this`records, this`refunds
      ensures (View(), goesOn) == Started(old(View()), id, old(records)[id], allowCommitted, script, watchdog)
    {
      var record := records[id];
      var (status, reply) := RollbackScript(record.status, allowCommitted);
      if script != Lost {
        records := records[id := record.(status := status)];
      }
      assert old(records)[id := record] == old(records);
      if script != Fine || (reply != StatusWas(RolledBack) && reply != Compensated) {
        return false;
      }
      refunds := refunds + [Refund(id, watchdog, record.status != RolledBack, Loading)];
      return true;
    }

    /** `_load_reservation` and `_credit_reservation_amount`, one await after the other, and `_cancel_watchdog`. A
        rollback that was cancelled is over and does nothing more. */
    method LoadReservation(k: nat, loads: bool)
      modifies this`refunds
      ensures View() == Apply(old(View()), Load(k, loads)).0
    {
      if k < |refunds| && refunds[k].stage == Loading && refunds[k].id < |records| {
        refunds := refunds[k := refunds[k].(due := loads && refunds[k].due, stage := if loads then Paying else Ending)];
      }
    }

    method CreditWallet(k: nat, credit: Fault)
      modifies this
      ensures View() == Apply(old(View()), Pay(k, credit)).0
    {
      if k < |refunds| && refunds[k].stage == Paying && refunds[k].id < |records| {
        if credit != Lost {
          var record := records[refunds[k].id];
          Repay(record.account, record.amount);
          records := records[refunds[k].id := record.(refunds := record.refunds + 1, payments := record.payments + 1)];
        }
        refunds := refunds[k := refunds[k].(due := refunds[k].due && credit == Lost,
                                            stage := if credit == Fine then Ending else Queueing)];
      }
    }

    method HandleRefundFailure(k: nat, queues: bool)
      modifies this`records, this`refunds
      ensures View() == Apply(old(View()), Enqueue(k, queues)).0
    {
      if k < |refunds| && refunds[k].stage == Queueing && refunds[k].id < |records| {
        if queues {
          var record := records[refunds[k].id];
          records := records[refunds[k].id := record.(owed := record.owed + record.amount,
                                                      payments := record.payments + 1)];
        }
        refunds := refunds[k := refunds[k].(due := false, stage := Ending)];
      }
    }

    method EndRollback(k: nat)
      modifies this`records, this`refunds
      ensures View() == Apply(old(View()), End(k)).0
    {
      if k < |refunds| && refunds[k].stage == Ending && refunds[k].id < |records| {
        var id := refunds[k].id;
        refunds := refunds[k := refunds[k].(due := false, stage := Over)];
        CancelWatchdog(id);
      }
    }

    /** What others do while a call is suspended. */
    method Suspend(others: seq<Event>)
      modifies this
      ensures View() == After(old(View()), others)
    {
      for j := 0 to |others|
        invariant View() == After(old(View()), others[..j])
      {
        assert others[..j + 1][..j] == others[..j];
        var b := Apply(Bank(balances, records, refunds), others[j]).0;
        balances, records, refunds := b.balances, b.records, b.refunds;
      }
      assert others[..|others|] == others;
    }

    /** The rest of `rollback_reservation`. */
    method PayBack(k: nat, f: RollbackFaults, others: Others)
      modifies this
      ensures View() == PaidBack(old(View()), k, f, others)
    {
      Suspend(others.0);
      LoadReservation(k, f.loads);
      Suspend(others.1);
      CreditWallet(k, f.credit);
      Suspend(others.2);
      HandleRefundFailure(k, f.queues);
      Suspend(others.3);
      EndRollback(k);
    }

    method RollbackReservation(id: nat, allowCommitted: bool, f: RollbackFaults, others: Others) returns (ok: bool)
      modifies this
      ensures (View(), ok) == Rollback(old(View()), Script(id, allowCommitted, f.script), f, others)
    {
      if id >= |records| {
        return false;
      }
      var k := |refunds|;
      ok := EvalRollback(id, allowCommitted, f.script, false);
      if ok {
        PayBack(k, f, others);
      }
    }

    /** `_auto_rollback`, when its sleep is over. */
    method AutoRollback(id: nat, f: RollbackFaults, others: Others)
      modifies this
      ensures View() == Rollback(old(View()), Wake(id, f.script), f, others).0
    {
      if id < |records| && records[id].watched {
        var k := |refunds|;
        ghost var was := records;
        records := records[id := records[id].(watched := false)];
        ghost var scripted := ScriptRecord(records[id], false, f.script).0;
        assert records[id := scripted] == was[id := scripted];
        var goesOn := EvalRollback(id, false, f.script, true);
        if goesOn {
          PayBack(k, f, others);
        }
      }
    }
  }

  // ---------------------------------------------------------------------------------------------
  // Conservation
  // ---------------------------------------------------------------------------------------------

  /** The chips of account `a` in its reservations and in the dead-letter queue. */
  function Values(records: seq<Record>, a: nat): int {
    if records == [] then 0 else (if records[0].account == a then Value(records[0]) else 0) + Values(records[1..], a)
  }

  function AmountOf(records: seq<Record>, id: nat): nat {
    if id < |records| then records[id].amount else 0
  }

  predicate IsOf(records: seq<Record>, id: nat, a: nat) {
    id < |records| && records[id].account == a
  }

  /** The chips of account `a` that rollbacks under way have taken out and not paid yet. */
  function InFlight(refunds: seq<Refund>, records: seq<Record>, a: nat): int {
    if refunds == [] then 0
    else
      (if refunds[0].due && IsOf(records, refunds[0].id, a) then AmountOf(records, refunds[0].id) else 0)
      + InFlight(refunds[1..], records, a)
  }

  /** All chips of account `a`: in its wallet, in reservations, in the dead-letter queue and on their way back. */
  function Holding(b: Bank, a: nat): int
    requires a < |b.balances|
  {
    b.balances[a] + Values(b.records, a) + InFlight(b.refunds, b.records, a)
  }

  /** The chips of the first `n` accounts. */
  function TotalTo(b: Bank, n: nat): int
    requires n <= |b.balances|
  {
    if n == 0 then 0 else TotalTo(b, n - 1) + Holding(b, n - 1)
  }

  /** All chips. */
  function Total(b: Bank): int {
    TotalTo(b, |b.balances|)
  }

  ghost predicate Sound(b: Bank) {
    && (forall i :: 0 <= i < |b.records| ==> b.records[i].account < |b.balances|)
    && (forall k :: 0 <= k < |b.refunds| ==> b.refunds[k].id < |b.records|)
  }

  /** What is lost when the watchdog is stopped in the middle of its rollback. */
  function StoppedValue(refunds: seq<Refund>, records: seq<Record>, id: nat): (n: int)
    ensures n >= 0
  {
    if refunds == [] then 0
    else
      (if refunds[0].id == id && refunds[0].watchdog && refunds[0].due then AmountOf(records, id) else 0)
      + StoppedValue(refunds[1..], records, id)
  }

  /** The chips that appear in an event, or disappear if negative: a debit or a script that took effect without a
      reply, a failed compensation, a record that cannot be loaded, a failed credit that is not queued, and a watchdog
      stopped before it paid lose chips; paying what is not due makes some. */
  function Gain(b: Bank, e: Event): int {
    match e
    case Reserve(account, amount, seen, debit, created, refund) =>
      if amount <= 0 || seen == None || seen.value < amount || account >= |b.balances| || debit == Lost then 0
      else if debit == Late || (!created && refund == Lost) then -amount
      else 0
    case Commit(id, fault) =>
      if id < |b.records| && CommitRecord(b.records[id], fault).1 then -StoppedValue(b.refunds, b.records, id) else 0
    case Script(id, allow, script) =>
      if id < |b.records| && script == Late then -TakenOut(b.records[id], allow) else 0
    case Wake(id, script) =>
      if id < |b.records| && b.records[id].watched && script == Late then -TakenOut(b.records[id], false) else 0
    case Load(k, loads) => if IsAt(b, k, Loading) && !loads then -DueTo(b, k) else 0
    case Pay(k, credit) =>
      if IsAt(b, k, Paying) && credit != Lost then AmountOf(b.records, b.refunds[k].id) - DueTo(b, k) else 0
    case Enqueue(k, queues) =>
      if !IsAt(b, k, Queueing) then 0
      else (if queues then AmountOf(b.records, b.refunds[k].id) else 0) - DueTo(b, k)
    case End(k) =>
      if !IsAt(b, k, Ending) then 0
      else -DueTo(b, k) - StoppedValue(Moved(b, k, false, Over).refunds, b.records, b.refunds[k].id)
  }

  function DueTo(b: Bank, k: nat): (n: int)
    requires k < |b.refunds|
    ensures n >= 0
  {
    if b.refunds[k].due then AmountOf(b.records, b.refunds[k].id) else 0
  }

  /** What the script of a rollback takes out of the reservation. */
  function TakenOut(r: Record, allowCommitted: bool): (n: int)
    ensures n >= 0
  {
    if r.status == Pending || (r.status == Committed && allowCommitted) then r.amount else 0
  }

  /** Whose chips an event is about. */
  predicate Concerns(b: Bank, e: Event, a: nat) {
    match e
    case Reserve(account, _, _, _, _, _) => account == a
    case Commit(id, _) => IsOf(b.records, id, a)
    case Script(id, _, _) => IsOf(b.records, id, a)
    case Wake(id, _) => IsOf(b.records, id, a)
    case Load(k, _) => k < |b.refunds| && IsOf(b.records, b.refunds[k].id, a)
    case Pay(k, _) => k < |b.refunds| && IsOf(b.records, b.refunds[k].id, a)
    case Enqueue(k, _) => k < |b.refunds| && IsOf(b.records, b.refunds[k].id, a)
    case End(k) => k < |b.refunds| && IsOf(b.records, b.refunds[k].id, a)
  }

  /** What the event gains for account `a`. */
  function GainOf(b: Bank, e: Event, a: nat): int {
    if Concerns(b, e, a) then Gain(b, e) else 0
  }

  /** `n`, if it is account `a`'s. */
  function For(account: nat, a: nat, n: int): int {
    if account == a then n else 0
  }

  lemma ValuesAfterUpdate(records: seq<Record>, i: nat, r: Record, a: nat)
    requires i < |records| && r.account == records[i].account
    ensures Values(records[i := r], a) == Values(records, a) + For(r.account, a, Value(r) - Value(records[i]))
  {
    if i > 0 {
      ValuesAfterUpdate(records[1..], i - 1, r, a);
      assert records[i := r][1..] == records[1..][i - 1 := r];
    }
  }

  lemma ValuesAppend(records: seq<Record>, r: Record, a: nat)
    ensures Values(records + [r], a) == Values(records, a) + For(r.account, a, Value(r))
  {
    if records != [] {
      ValuesAppend(records[1..], r, a);
      assert (records + [r])[1..] == records[1..] + [r];
    }
  }

  lemma InFlightAfterUpdate(refunds: seq<Refund>, records: seq<Record>, k: nat, due: bool, stage: Stage, a: nat)
    requires k < |refunds| && refunds[k].id < |records|
    ensures InFlight(refunds[k := refunds[k].(due := due, stage := stage)], records, a) ==
              InFlight(refunds, records, a)
              + For(records[refunds[k].id].account, a,
                    (if due then records[refunds[k].id].amount else 0)
                    - (if refunds[k].due then records[refunds[k].id].amount else 0))
  {
    if k > 0 {
      InFlightAfterUpdate(refunds[1..], records, k - 1, due, stage, a);
      assert refunds[k := refunds[k].(due := due, stage := stage)][1..]
          == refunds[1..][k - 1 := refunds[k].(due := due, stage := stage)];
    }
  }

  lemma InFlightAppend(refunds: seq<Refund>, records: seq<Record>, r: Refund, a: nat)
    requires r.id < |records|
    ensures InFlight(refunds + [r], records, a) ==
              InFlight(refunds, records, a) + For(records[r.id].account, a, if r.due then records[r.id].amount else 0)
  {
    if refunds != [] {
      InFlightAppend(refunds[1..], records, r, a);
      assert (refunds + [r])[1..] == refunds[1..] + [r];
    }
  }

  lemma InFlightStopped(refunds: seq<Refund>, records: seq<Record>, id: nat, a: nat)
    requires id < |records|
    ensures InFlight(Stopped(refunds, id), records, a) ==
              InFlight(refunds, records, a) - For(records[id].account, a, StoppedValue(refunds, records, id))
  {
  }

  /** Accounts and amounts of reservations never change, so what is in flight does not depend on the rest of the
      records. */
  lemma InFlightSame(refunds: seq<Refund>, r: seq<Record>, r': seq<Record>, a: nat)
    requires |r| <= |r'|
    requires forall i :: 0 <= i < |r| ==> r[i].amount == r'[i].amount && r[i].account == r'[i].account
    requires forall k :: 0 <= k < |refunds| ==> refunds[k].id < |r|
    ensures InFlight(refunds, r, a) == InFlight(refunds, r', a)
  {
  }

  lemma ReserveGains(b: Bank, e: Event, a: nat)
    requires Sound(b) && e.Reserve? && a < |b.balances|
    ensures var b' := Apply(b, e).0;
            Sound(b') && |b'.balances| == |b.balances| && Holding(b', a) == Holding(b, a) + GainOf(b, e, a)
  {
    if e.amount > 0 && e.account < |b.balances| {
      ValuesAppend(b.records, Fresh(e.account, e.amount), a);
      InFlightSame(b.refunds, b.records, b.records + [Fresh(e.account, e.amount)], a);
    }
  }

  /** A record keeps its amount and account; only its value changes. */
  lemma RecordChanges(b: Bank, id: nat, r: Record, a: nat)
    requires Sound(b) && id < |b.records| && a < |b.balances|
    requires r.amount == b.records[id].amount && r.account == b.records[id].account
    ensures var b' := b.(records := b.records[id := r]);
            Sound(b') && Holding(b', a) == Holding(b, a) + For(r.account, a, Value(r) - Value(b.records[id]))
  {
    ValuesAfterUpdate(b.records, id, r, a);
    InFlightSame(b.refunds, b.records, b.records[id := r], a);
  }

  lemma CancellingGains(b: Bank, id: nat, a: nat)
    requires Sound(b) && id < |b.records| && a < |b.balances|
    ensures Sound(Cancelled(b, id))
    ensures Holding(Cancelled(b, id), a) ==
              Holding(b, a) - For(b.records[id].account, a, StoppedValue(b.refunds, b.records, id))
  {
    var r := b.records[id].(watched := false);
    RecordChanges(b, id, r, a);
    InFlightSame(b.refunds, b.records, b.records[id := r], a);
    InFlightStopped(b.refunds, b.records[id := r], id, a);
    StoppedSame(b.refunds, b.records, b.records[id := r], id);
  }

  lemma StoppedSame(refunds: seq<Refund>, r: seq<Record>, r': seq<Record>, id: nat)
    requires AmountOf(r, id) == AmountOf(r', id)
    ensures StoppedValue(refunds, r, id) == StoppedValue(refunds, r', id)
  {
  }

  lemma CommitGains(b: Bank, e: Event, a: nat)
    requires Sound(b) && e.Commit? && a < |b.balances|
    ensures var b' := Apply(b, e).0;
            Sound(b') && b'.balances == b.balances && Holding(b', a) == Holding(b, a) + GainOf(b, e, a)
  {
    if e.id < |b.records| {
      var (r, ok) := CommitRecord(b.records[e.id], e.fault);
      RecordChanges(b, e.id, r, a);
      var b' := b.(records := b.records[e.id := r]);
      if ok {
        CancellingGains(b', e.id, a);
        StoppedSame(b.refunds, b.records, b'.records, e.id);
      }
    }
  }

  lemma StartingGains(b: Bank, id: nat, watched: bool, allow: bool, script: Fault, watchdog: bool, a: nat)
    requires Sound(b) && id < |b.records| && a < |b.balances|
    ensures var b' := Started(b, id, b.records[id].(watched := watched), allow, script, watchdog).0;
            && Sound(b') && b'.balances == b.balances
            && Holding(b', a) == Holding(b, a)
                 - For(b.records[id].account, a, if script == Late then TakenOut(b.records[id], allow) else 0)
  {
    var r := b.records[id].(watched := watched);
    var (scripted, goesOn) := ScriptRecord(r, allow, script);
    RecordChanges(b, id, scripted, a);
    if goesOn {
      InFlightAppend(b.refunds, b.records[id := scripted], Refund(id, watchdog, r.status != RolledBack, Loading), a);
    }
  }

  lemma MovingGains(b: Bank, k: nat, due: bool, stage: Stage, a: nat)
    requires Sound(b) && k < |b.refunds| && a < |b.balances|
    ensures Sound(Moved(b, k, due, stage))
    ensures var r := b.records[b.refunds[k].id];
            Holding(Moved(b, k, due, stage), a) ==
              Holding(b, a) + For(r.account, a, (if due then r.amount else 0) - DueTo(b, k))
  {
    InFlightAfterUpdate(b.refunds, b.records, k, due, stage, a);
  }

  lemma PayGains(b: Bank, k: nat, credit: Fault, a: nat)
    requires Sound(b) && IsAt(b, k, Paying) && a < |b.balances|
    ensures var b' := Paid(b, k, credit);
            && Sound(b') && |b'.balances| == |b.balances|
            && Holding(b', a) == Holding(b, a) + GainOf(b, Pay(k, credit), a)
  {
    var id := b.refunds[k].id;
    var r := b.records[id];
    if credit == Lost {
      MovingGains(b, k, b.refunds[k].due, Queueing, a);
    } else {
      var stage := if credit == Fine then Ending else Queueing;
      MovingGains(b, k, false, stage, a);
      RecordChanges(Moved(b, k, false, stage), id, r.(refunds := r.refunds + 1, payments := r.payments + 1), a);
    }
  }

  lemma QueueGains(b: Bank, k: nat, queues: bool, a: nat)
    requires Sound(b) && IsAt(b, k, Queueing) && a < |b.balances|
    ensures var b' := Queued(b, k, queues);
            && Sound(b') && b'.balances == b.balances
            && Holding(b', a) == Holding(b, a) + GainOf(b, Enqueue(k, queues), a)
  {
    var r := b.records[b.refunds[k].id];
    MovingGains(b, k, false, Ending, a);
    RecordChanges(Moved(b, k, false, Ending), b.refunds[k].id,
                  r.(owed := r.owed + r.amount, payments := r.payments + 1), a);
  }

  lemma ScriptGains(b: Bank, e: Event, a: nat)
    requires Sound(b) && a < |b.balances| && (e.Script? || e.Wake?)
    ensures var b' := Apply(b, e).0;
            Sound(b') && |b'.balances| == |b.balances| && Holding(b', a) == Holding(b, a) + GainOf(b, e, a)
  {
    if e.id < |b.records| {
      if e.Script? {
        assert b.records[e.id].(watched := b.records[e.id].watched) == b.records[e.id];
        StartingGains(b, e.id, b.records[e.id].watched, e.allowCommitted, e.script, false, a);
      } else {
        StartingGains(b, e.id, false, false, e.script, true, a);
      }
    }
  }

  lemma EndGains(b: Bank, k: nat, a: nat)
    requires Sound(b) && a < |b.balances| && IsAt(b, k, Ending)
    ensures var b' := Apply(b, End(k)).0;
            Sound(b') && |b'.balances| == |b.balances| && Holding(b', a) == Holding(b, a) + GainOf(b, End(k), a)
  {
    MovingGains(b, k, false, Over, a);
    CancellingGains(Moved(b, k, false, Over), b.refunds[k].id, a);
  }

  /** Every event changes what the account that it is about holds by its gain, and no other account's chips. */
  lemma EventGains(b: Bank, e: Event, a: nat)
    requires Sound(b) && a < |b.balances|
    ensures var b' := Apply(b, e).0;
            Sound(b') && |b'.balances| == |b.balances| && Holding(b', a) == Holding(b, a) + GainOf(b, e, a)
  {
    match e
    case Reserve(_, _, _, _, _, _) => ReserveGains(b, e, a);
    case Commit(_, _) => CommitGains(b, e, a);
    case Script(_, _, _) => ScriptGains(b, e, a);
    case Wake(_, _) => ScriptGains(b, e, a);
    case Load(k, loads) =>
      if IsAt(b, k, Loading) {
        MovingGains(b, k, loads && b.refunds[k].due, if loads then Paying else Ending, a);
      }
    case Pay(k, credit) =>
      if IsAt(b, k, Paying) {
        PayGains(b, k, credit, a);
      }
    case Enqueue(k, queues) =>
      if IsAt(b, k, Queueing) {
        QueueGains(b, k, queues, a);
      }
    case End(k) =>
      if IsAt(b, k, Ending) {
        EndGains(b, k, a);
      }
  }

  /** What the events of a run gain for account `a`. */
  function GainsOf(b: Bank, events: seq<Event>, a: nat): int {
    if events == [] then 0
    else
      var before := events[..|events| - 1];
      GainsOf(b, before, a) + GainOf(After(b, before), events[|events| - 1], a)
  }

  lemma AccountsStay(b: Bank, e: Event)
    ensures |Apply(b, e).0.balances| == |b.balances|
  {
  }

  /** Any number of reservations, whatever order the steps of their calls come in and wherever they fail: every account
      gains and loses by the events that concern it and not otherwise. */
  lemma {:induction false} RunGains(b: Bank, events: seq<Event>, a: nat)
    requires Sound(b) && a < |b.balances|
    ensures var b' := After(b, events);
            Sound(b') && |b'.balances| == |b.balances| && Holding(b', a) == Holding(b, a) + GainsOf(b, events, a)
  {
    if events != [] {
      var before := events[..|events| - 1];
      RunGains(b, before, a);
      EventGains(After(b, before), events[|events| - 1], a);
    }
  }

  lemma TotalsTo(b: Bank, b': Bank, n: nat)
    requires n <= |b.balances| == |b'.balances|
    requires forall a :: 0 <= a < n ==> Holding(b', a) == Holding(b, a)
    ensures TotalTo(b', n) == TotalTo(b, n)
  {
  }

  /** No call of the event fails. */
  predicate FaultFree(e: Event) {
    match e
    case Reserve(_, _, _, debit, created, _) => debit == Fine && created
    case Commit(_, fault) => fault == Fine
    case Script(_, _, script) => script == Fine
    case Wake(_, script) => script == Fine
    case Load(_, loads) => loads
    case Pay(_, credit) => credit == Fine
    case Enqueue(_, queues) => queues
    case End(_) => true
  }

  /** No rollback starts on a reservation that is rolled back already. */
  predicate FindsChips(b: Bank, e: Event) {
    && (e.Script? && e.id < |b.records| ==> b.records[e.id].status != RolledBack)
    && (e.Wake? && e.id < |b.records| && b.records[e.id].watched ==> b.records[e.id].status != RolledBack)
  }

  ghost predicate Orderly(b: Bank, events: seq<Event>) {
    forall i :: 0 <= i < |events| ==> FaultFree(events[i]) && FindsChips(After(b, events[..i]), events[i])
  }

  /** No two rollbacks of one reservation, and each owes its chips until it has paid them. */
  ghost predicate OneRefundEach(b: Bank) {
    && (forall k :: 0 <= k < |b.refunds| ==>
          && b.refunds[k].id < |b.records| && b.records[b.refunds[k].id].status == RolledBack
          && b.refunds[k].stage != Queueing && (b.refunds[k].due <==> b.refunds[k].stage in {Loading, Paying}))
    && forall j, k :: 0 <= j < k < |b.refunds| ==> b.refunds[j].id != b.refunds[k].id
  }

  lemma NothingStopped(refunds: seq<Refund>, records: seq<Record>, id: nat)
    requires forall k :: 0 <= k < |refunds| && refunds[k].id == id ==> !refunds[k].due
    ensures StoppedValue(refunds, records, id) == 0
  {
  }

  lemma EndIsOrderly(b: Bank, k: nat)
    requires OneRefundEach(b) && IsAt(b, k, Ending)
    ensures OneRefundEach(Apply(b, End(k)).0) && Gain(b, End(k)) == 0
  {
    EndGainsNothing(b, k);
    CancelledIsOrderly(Moved(b, k, false, Over), b.refunds[k].id);
  }

  lemma EndGainsNothing(b: Bank, k: nat)
    requires OneRefundEach(b) && IsAt(b, k, Ending)
    ensures OneRefundEach(Moved(b, k, false, Over)) && Gain(b, End(k)) == 0
  {
    var id := b.refunds[k].id;
    forall j | 0 <= j < |b.refunds| && j != k ensures b.refunds[j].id != id {
      assert if j < k then b.refunds[j].id != b.refunds[k].id else b.refunds[k].id != b.refunds[j].id;
    }
    NothingStopped(Moved(b, k, false, Over).refunds, b.records, id);
  }

  lemma CancelledIsOrderly(b: Bank, id: nat)
    requires OneRefundEach(b) && id < |b.records|
    ensures OneRefundEach(Cancelled(b, id))
  {
  }

  lemma StartedIsOrderly(b: Bank, id: nat, r: Record, allow: bool, watchdog: bool)
    requires OneRefundEach(b) && id < |b.records| && r.status == b.records[id].status != RolledBack
    ensures OneRefundEach(Started(b, id, r, allow, Fine, watchdog).0)
  {
    forall k | 0 <= k < |b.refunds| ensures b.refunds[k].id != id {
      assert b.records[b.refunds[k].id].status == RolledBack;
    }
    var b' := Started(b, id, r, allow, Fine, watchdog).0;
    forall k | 0 <= k < |b'.refunds|
      ensures b'.refunds[k].id < |b'.records| && b'.records[b'.refunds[k].id].status == RolledBack
    {
      if k < |b.refunds| {
        assert b'.refunds[k] == b.refunds[k];
      }
    }
    forall j, k | 0 <= j < k < |b'.refunds| ensures b'.refunds[j].id != b'.refunds[k].id {
      assert b'.refunds[j] == b.refunds[j];
      if k < |b.refunds| {
        assert b'.refunds[k] == b.refunds[k];
      }
    }
  }

  lemma StartIsOrderly(b: Bank, e: Event)
    requires OneRefundEach(b) && (e.Script? || e.Wake?) && FaultFree(e) && FindsChips(b, e)
    ensures OneRefundEach(Apply(b, e).0) && Gain(b, e) == 0
  {
    if e.id < |b.records| {
      var r := b.records[e.id];
      match e
      case Script(id, allow, _) => StartedIsOrderly(b, id, r, allow, false);
      case Wake(id, _) =>
        if r.watched {
          StartedIsOrderly(b, id, r.(watched := false), false, true);
        }
    }
  }

  lemma StepIsOrderly(b: Bank, e: Event)
    requires OneRefundEach(b) && FaultFree(e) && FindsChips(b, e)
    ensures OneRefundEach(Apply(b, e).0) && Gain(b, e) == 0
  {
    match e
    case End(k) =>
      if IsAt(b, k, Ending) {
        EndIsOrderly(b, k);
      }
    case Commit(id, fault) =>
      CommitIsOrderly(b, id, fault);
    case Script(_, _, _) => StartIsOrderly(b, e);
    case Wake(_, _) => StartIsOrderly(b, e);
    case _ =>
  }

  lemma CommitIsOrderly(b: Bank, id: nat, fault: Fault)
    requires OneRefundEach(b)
    ensures OneRefundEach(Apply(b, Commit(id, fault)).0) && Gain(b, Commit(id, fault)) == 0
  {
    if id < |b.records| {
      var (r, ok) := CommitRecord(b.records[id], fault);
      if b.records[id].status != RolledBack {
        forall k | 0 <= k < |b.refunds| ensures b.refunds[k].id != id {
          assert b.records[b.refunds[k].id].status == RolledBack;
        }
      }
      var b' := b.(records := b.records[id := r]);
      assert OneRefundEach(b');
      if ok {
        NothingStopped(b.refunds, b.records, id);
        CancelledIsOrderly(b', id);
      }
    }
  }

  lemma OrderlyBefore(b: Bank, events: seq<Event>)
    requires Orderly(b, events) && events != []
    ensures Orderly(b, events[..|events| - 1])
  {
    var n := |events| - 1;
    forall i | 0 <= i < n
      ensures FaultFree(events[..n][i]) && FindsChips(After(b, events[..n][..i]), events[..n][i])
    {
      assert events[..n][..i] == events[..i];
    }
  }

  /** Without faults, and when no rollback starts on a reservation that is rolled back already, no chip appears,
      disappears or changes hands, whatever the steps of the calls are interleaved with. */
  lemma {:induction false} OrderlyRunConserves(b: Bank, events: seq<Event>, a: nat)
    requires Sound(b) && OneRefundEach(b) && Orderly(b, events) && a < |b.balances|
    ensures OneRefundEach(After(b, events)) && GainsOf(b, events, a) == 0
    ensures a < |After(b, events).balances| && Holding(After(b, events), a) == Holding(b, a)
  {
    if events != [] {
      var n := |events| - 1;
      OrderlyBefore(b, events);
      OrderlyRunConserves(b, events[..n], a);
      StepIsOrderly(After(b, events[..n]), events[n]);
    }
    RunGains(b, events, a);
  }

  /** So all accounts together hold what they held. */
  lemma OrderlyRunKeepsTheTotal(b: Bank, events: seq<Event>)
    requires Sound(b) && OneRefundEach(b) && Orderly(b, events)
    ensures Total(After(b, events)) == Total(b)
  {
    RunKeepsAccounts(b, events);
    forall a | 0 <= a < |b.balances| ensures Holding(After(b, events), a) == Holding(b, a) {
      OrderlyRunConserves(b, events, a);
    }
    TotalsTo(b, After(b, events), |b.balances|);
  }

  lemma RunKeepsAccounts(b: Bank, events: seq<Event>)
    ensures |After(b, events).balances| == |b.balances|
  {
    if events != [] {
      RunKeepsAccounts(b, events[..|events| - 1]);
      AccountsStay(After(b, events[..|events| - 1]), events[|events| - 1]);
    }
  }

  // ---------------------------------------------------------------------------------------------
  // Debts
  // ---------------------------------------------------------------------------------------------

  /** A reservation that takes chips and keeps them takes no more than are there. */
  predicate Covered(b: Bank, e: Event) {
    e.Reserve? && 0 < e.amount && e.seen.Some? && e.amount <= e.seen.value && e.account < |b.balances|
    && e.debit != Lost && (e.debit == Late || e.created || e.refund == Lost) ==>
      e.amount <= b.balances[e.account]
  }

  ghost predicate Solvent(b: Bank) {
    forall i :: 0 <= i < |b.balances| ==> b.balances[i] >= 0
  }

  lemma SolventExactlyWhenCovered(b: Bank, e: Event)
    requires Solvent(b)
    ensures Solvent(Apply(b, e).0) <==> Covered(b, e)
  {
    if !Covered(b, e) {
      assert Apply(b, e).0.balances[e.account] < 0;
    }
  }

  ghost predicate AlwaysSolvent(b: Bank, events: seq<Event>) {
    Solvent(After(b, events)) && (events != [] ==> AlwaysSolvent(b, events[..|events| - 1]))
  }

  predicate AlwaysCovered(b: Bank, events: seq<Event>) {
    events != [] ==>
      var before := events[..|events| - 1];
      AlwaysCovered(b, before) && Covered(After(b, before), events[|events| - 1])
  }

  /** No account is in debt at any moment of a run if and only if every reservation is covered by the balance at the
      moment of its debit; what the balance query before it has seen does not help. */
  lemma {:induction false} NeverInDebtExactlyWhenCovered(b: Bank, events: seq<Event>)
    requires Solvent(b)
    ensures AlwaysSolvent(b, events) <==> AlwaysCovered(b, events)
  {
    if events != [] {
      var before := events[..|events| - 1];
      NeverInDebtExactlyWhenCovered(b, before);
      if AlwaysSolvent(b, before) {
        SolventExactlyWhenCovered(After(b, before), events[|events| - 1]);
      }
    }
  }

  /** Between the balance query and the debit another reservation of the same account can be made; the debit does
      not look again, so two reservations can take what is there once. */
  lemma TwoReservationsOverdraw(amount: int)
    requires amount > 0
    ensures var b := Bank([amount], [], []);
            var reserve := Reserve(0, amount, Some(amount), Fine, true, Fine);
            After(b, [reserve, reserve]).balances == [-amount]
  {
    var b := Bank([amount], [], []);
    var e := Reserve(0, amount, Some(amount), Fine, true, Fine);
    assert [e, e][..1] == [e] && [e][..0] == [];
    assert After(b, [e]).balances == [0];
  }

  // ---------------------------------------------------------------------------------------------
  // A rollback and the watchdog
  // ---------------------------------------------------------------------------------------------

  lemma AfterMore(b: Bank, events: seq<Event>, e: Event)
    ensures After(b, events + [e]) == Apply(After(b, events), e).0
  {
    assert (events + [e])[..|events|] == events;
  }

  lemma AfterFive(b: Bank, e0: Event, e1: Event, e2: Event, e3: Event, e4: Event)
    ensures After(b, [e0, e1, e2, e3, e4]) ==
              Apply(Apply(Apply(Apply(Apply(b, e0).0, e1).0, e2).0, e3).0, e4).0
  {
    AfterMore(b, [], e0);
    AfterMore(b, [e0], e1);
    AfterMore(b, [e0, e1], e2);
    AfterMore(b, [e0, e1, e2], e3);
    AfterMore(b, [e0, e1, e2, e3], e4);
    assert [] + [e0] == [e0] && [e0] + [e1] == [e0, e1] && [e0, e1] + [e2] == [e0, e1, e2];
    assert [e0, e1, e2] + [e3] == [e0, e1, e2, e3] && [e0, e1, e2, e3] + [e4] == [e0, e1, e2, e3, e4];
  }

  /** All steps of the watchdog of reservation `id`, as rollback number `k`. */
  function WatchdogSteps(id: nat, k: nat, f: RollbackFaults): seq<Event> {
    [Wake(id, f.script), Load(k, f.loads), Pay(k, f.credit), Enqueue(k, f.queues), End(k)]
  }

  /** The wallets after `n` credits of a reservation. */
  function Credited(balances: seq<int>, r: Record, n: nat): seq<int> {
    if n == 0 then balances else Deposit(balances, r.account, n * r.amount)
  }

  /** The bank after reservation `id` has become `r` by `n` credits. */
  function Changed(b: Bank, id: nat, r: Record, n: nat): Bank
    requires id < |b.records|
  {
    b.(balances := Credited(b.balances, b.records[id], n), records := b.records[id := r])
  }

  /** The credit, or what is done when it fails. */
  lemma PaysOrQueues(b: Bank, k: nat, f: RollbackFaults)
    requires IsAt(b, k, Paying) && f.loads
    ensures var id := b.refunds[k].id;
            var r := b.records[id];
            var r' := Credit(r, f);
            Apply(Apply(b, Pay(k, f.credit)).0, Enqueue(k, f.queues)).0 ==
              Changed(b, id, r', r'.refunds - r.refunds).(
                refunds := b.refunds[k := b.refunds[k].(due := false, stage := Ending)])
  {
    var id := b.refunds[k].id;
    var r := b.records[id];
    var paid := r.(refunds := r.refunds + 1, payments := r.payments + 1);
    assert b.records[id := r] == b.records;
    assert b.records[id := paid][id := Credit(r, f)] == b.records[id := Credit(r, f)];
    var queueing := b.refunds[k].(due := b.refunds[k].due && f.credit == Lost, stage := Queueing);
    var ending := b.refunds[k].(due := false, stage := Ending);
    assert b.refunds[k := queueing][k := ending] == b.refunds[k := ending];
  }

  lemma LoadsAndPays(b: Bank, k: nat, f: RollbackFaults)
    requires IsAt(b, k, Loading)
    ensures var id := b.refunds[k].id;
            var r := b.records[id];
            var r' := Credit(r, f);
            Apply(Apply(Apply(b, Load(k, f.loads)).0, Pay(k, f.credit)).0, Enqueue(k, f.queues)).0 ==
              Changed(b, id, r', r'.refunds - r.refunds).(
                refunds := b.refunds[k := b.refunds[k].(due := false, stage := Ending)])
  {
    var loaded := Apply(b, Load(k, f.loads)).0;
    if f.loads {
      PaysOrQueues(loaded, k, f);
      var ending := b.refunds[k].(due := false, stage := Ending);
      assert loaded.refunds[k := ending] == b.refunds[k := ending];
    } else {
      assert b.records[b.refunds[k].id := b.records[b.refunds[k].id]] == b.records;
    }
  }

  lemma EndIs(b: Bank, k: nat)
    requires IsAt(b, k, Ending)
    ensures var id := b.refunds[k].id;
            Apply(b, End(k)).0 ==
              b.(records := b.records[id := b.records[id].(watched := false)],
                 refunds := Stopped(b.refunds[k := b.refunds[k].(due := false, stage := Over)], id))
  {
  }

  lemma EndsAs(b: Bank, k: nat, r: Record, n: nat)
    requires k < |b.refunds| && b.refunds[k].id < |b.records|
    ensures var id := b.refunds[k].id;
            var paid := Changed(b, id, r, n).(refunds := b.refunds[k := b.refunds[k].(due := false, stage := Ending)]);
            Apply(paid, End(k)).0 ==
              Changed(b, id, r.(watched := false), n).(
                refunds := Stopped(b.refunds[k := b.refunds[k].(due := false, stage := Over)], id))
  {
    var id := b.refunds[k].id;
    var ending, over := b.refunds[k].(due := false, stage := Ending), b.refunds[k].(due := false, stage := Over);
    EndIs(Changed(b, id, r, n).(refunds := b.refunds[k := ending]), k);
    assert b.refunds[k := ending][k := over] == b.refunds[k := over];
    assert b.records[id := r][id := r.(watched := false)] == b.records[id := r.(watched := false)];
  }

  const NOTHING: Others := ([], [], [], [])

  /** The four steps after the script, in a row. */
  lemma PaysBack(b: Bank, k: nat, f: RollbackFaults)
    requires IsAt(b, k, Loading)
    ensures var id := b.refunds[k].id;
            var r := b.records[id];
            var r' := Credit(r, f);
            PaidBack(b, k, f, NOTHING) ==
              Changed(b, id, r'.(watched := false), r'.refunds - r.refunds).(
                refunds := Stopped(b.refunds[k := b.refunds[k].(due := false, stage := Over)], id))
  {
    var r := b.records[b.refunds[k].id];
    LoadsAndPays(b, k, f);
    EndsAs(b, k, Credit(r, f), Credit(r, f).refunds - r.refunds);
  }

  lemma ChangedOnce(b: Bank, id: nat, r: Record, r': Record, n: nat, refunds: seq<Refund>)
    requires id < |b.records| && r.amount == b.records[id].amount && r.account == b.records[id].account
    ensures Changed(b.(records := b.records[id := r], refunds := refunds), id, r', n) ==
              Changed(b, id, r', n).(refunds := refunds)
  {
    assert b.records[id := r][id := r'] == b.records[id := r'];
  }

  lemma StartedIs(b: Bank, id: nat, r: Record, allow: bool, script: Fault, watchdog: bool)
    requires id < |b.records| && ScriptRecord(r, allow, script).1
    ensures var b0, k := Started(b, id, r, allow, script, watchdog).0, |b.refunds|;
            && b0 == b.(records := b.records[id := ScriptRecord(r, allow, script).0], refunds := b0.refunds)
            && IsAt(b0, k, Loading) && b0.refunds[k].id == id
            && b0.refunds[k := b0.refunds[k].(due := false, stage := Over)] ==
               b.refunds + [Refund(id, watchdog, false, Over)]
  {
  }

  lemma StartsAndPaysBack(b: Bank, id: nat, r: Record, allow: bool, f: RollbackFaults, watchdog: bool)
    requires id < |b.records| && ScriptRecord(r, allow, f.script).1
    requires r.amount == b.records[id].amount && r.account == b.records[id].account
    ensures var r' := RollbackRecord(r, allow, f).0;
            PaidBack(Started(b, id, r, allow, f.script, watchdog).0, |b.refunds|, f, NOTHING) ==
              Changed(b, id, r', r'.refunds - r.refunds).(
                refunds := Stopped(b.refunds + [Refund(id, watchdog, false, Over)], id))
  {
    var k := |b.refunds|;
    var r' := RollbackRecord(r, allow, f).0;
    var scripted := ScriptRecord(r, allow, f.script).0;
    var b0 := Started(b, id, r, allow, f.script, watchdog).0;
    StartedIs(b, id, r, allow, f.script, watchdog);
    PaysBack(b0, k, f);
    ChangedOnce(b, id, scripted, r', r'.refunds - r.refunds, b0.refunds);
  }

  lemma StoppedAppend(refunds: seq<Refund>, id: nat)
    ensures Stopped(refunds + [Refund(id, true, false, Over)], id) ==
              Stopped(refunds, id) + [Refund(id, true, false, Over)]
  {
  }

  lemma NoSuchRefund(b: Bank, k: nat, f: RollbackFaults)
    requires k >= |b.refunds|
    ensures PaidBack(b, k, f, NOTHING) == b
  {
  }

  lemma WatchdogInARow(b: Bank, id: nat, k: nat, g: RollbackFaults)
    ensures After(b, WatchdogSteps(id, k, g)) == PaidBack(Apply(b, Wake(id, g.script)).0, k, g, NOTHING)
  {
    AfterFive(b, Wake(id, g.script), Load(k, g.loads), Pay(k, g.credit), Enqueue(k, g.queues), End(k));
  }

  /** The bank after all steps of the watchdog. */
  function WatchdogDone(b: Bank, id: nat, g: RollbackFaults): Bank
    requires id < |b.records|
  {
    var r := b.records[id];
    if !r.watched then b
    else if !ScriptRecord(r, false, g.script).1 then b.(records := b.records[id := Fire(r, g)])
    else
      Changed(b, id, Fire(r, g), Fire(r, g).refunds - r.refunds).(
        refunds := Stopped(b.refunds, id) + [Refund(id, true, false, Over)])
  }

  lemma FireIs(r: Record, g: RollbackFaults)
    requires r.watched
    ensures Fire(r, g) == RollbackRecord(r.(watched := false), false, g).0
    ensures ScriptRecord(r.(watched := false), false, g.script).1 == ScriptRecord(r, false, g.script).1
  {
  }

  /** Waking is the start of the watchdog's rollback. */
  lemma WakeStarts(b: Bank, id: nat, g: RollbackFaults)
    requires id < |b.records| && b.records[id].watched
    ensures Apply(b, Wake(id, g.script)).0 ==
              Started(b, id, b.records[id].(watched := false), false, g.script, true).0
  {
  }

  lemma WatchdogGoesOn(b: Bank, id: nat, g: RollbackFaults)
    requires id < |b.records| && b.records[id].watched && ScriptRecord(b.records[id], false, g.script).1
    ensures PaidBack(Apply(b, Wake(id, g.script)).0, |b.refunds|, g, NOTHING) == WatchdogDone(b, id, g)
  {
    var r := b.records[id];
    FireIs(r, g);
    WakeStarts(b, id, g);
    StoppedAppend(b.refunds, id);
    StartsAndPaysBack(b, id, r.(watched := false), false, g, true);
  }

  lemma WatchdogStops(b: Bank, id: nat, g: RollbackFaults)
    requires id < |b.records| && !(b.records[id].watched && ScriptRecord(b.records[id], false, g.script).1)
    ensures Apply(b, Wake(id, g.script)).0 == WatchdogDone(b, id, g)
    ensures |WatchdogDone(b, id, g).refunds| == |b.refunds|
  {
  }

  /** The watchdog's steps in a row are its rollback. */
  lemma WatchdogRuns(b: Bank, id: nat, g: RollbackFaults)
    requires id < |b.records|
    ensures After(b, WatchdogSteps(id, |b.refunds|, g)) == WatchdogDone(b, id, g)
  {
    WatchdogInARow(b, id, |b.refunds|, g);
    if b.records[id].watched && ScriptRecord(b.records[id], false, g.script).1 {
      WatchdogGoesOn(b, id, g);
    } else {
      WatchdogStops(b, id, g);
      NoSuchRefund(WatchdogDone(b, id, g), |b.refunds|, g);
    }
  }

  /** The four awaits, with `steps` at one of them. */
  function AtAwait(n: nat, steps: seq<Event>): Others {
    (if n == 0 then steps else [], if n == 1 then steps else [], if n == 2 then steps else [],
     if n == 3 then steps else [])
  }

  /** What loading, paying and queueing have in common: `credits` and `queued` say how often the chips are paid. */
  function Stepped(b: Bank, k: nat, due: bool, stage: Stage, credits: nat, queued: nat): Bank
    requires k < |b.refunds| && b.refunds[k].id < |b.records|
  {
    var id := b.refunds[k].id;
    var r := b.records[id];
    Changed(b, id, Added(r, credits, queued), credits).(
      refunds := b.refunds[k := b.refunds[k].(due := due, stage := stage)])
  }

  function Added(r: Record, credits: nat, queued: nat): Record {
    r.(refunds := r.refunds + credits, owed := r.owed + queued * r.amount, payments := r.payments + credits + queued)
  }

  lemma FireAdds(r: Record, g: RollbackFaults, credits: nat, queued: nat)
    ensures Fire(Added(r, credits, queued), g) == Added(Fire(r, g), credits, queued)
  {
  }

  lemma StoppedElsewhere(refunds: seq<Refund>, id: nat, k: nat, x: Refund)
    requires k < |refunds| && !refunds[k].watchdog && !x.watchdog
    ensures Stopped(refunds[k := x], id) + [Refund(id, true, false, Over)] ==
              (Stopped(refunds, id) + [Refund(id, true, false, Over)])[k := x]
  {
  }

  lemma DepositsCommute(balances: seq<int>, account: nat, m: int, n: int)
    ensures Deposit(Deposit(balances, account, m), account, n) == Deposit(Deposit(balances, account, n), account, m)
  {
  }

  lemma SameRefund(b: Bank, id: nat, k: nat, g: RollbackFaults)
    requires k < |b.refunds| && id < |b.records| && !b.refunds[k].watchdog
    ensures k < |WatchdogDone(b, id, g).refunds| && WatchdogDone(b, id, g).refunds[k] == b.refunds[k]
    ensures |WatchdogDone(b, id, g).records| == |b.records|
  {
  }

  lemma SteppedCommutesWithPaying(b: Bank, id: nat, k: nat, g: RollbackFaults,
                                  due: bool, stage: Stage, credits: nat, queued: nat)
    requires k < |b.refunds| && b.refunds[k].id == id < |b.records| && !b.refunds[k].watchdog
    requires b.records[id].watched && ScriptRecord(b.records[id], false, g.script).1
    requires var w := WatchdogDone(b, id, g); k < |w.refunds| && w.refunds[k] == b.refunds[k] && id < |w.records|
    ensures WatchdogDone(Stepped(b, k, due, stage, credits, queued), id, g) ==
              Stepped(WatchdogDone(b, id, g), k, due, stage, credits, queued)
  {
    var r := b.records[id];
    var n := Fire(r, g).refunds - r.refunds;
    FireAdds(r, g, credits, queued);
    StoppedElsewhere(b.refunds, id, k, b.refunds[k].(due := due, stage := stage));
    DepositsCommute(b.balances, r.account, credits * r.amount, n * r.amount);
    assert b.records[id := Added(r, credits, queued)][id := Added(Fire(r, g), credits, queued)]
        == b.records[id := Fire(r, g)][id := Added(Fire(r, g), credits, queued)];
  }

  lemma SteppedCommutes(b: Bank, id: nat, k: nat, g: RollbackFaults, due: bool, stage: Stage, credits: nat, queued: nat)
    requires k < |b.refunds| && b.refunds[k].id == id < |b.records| && !b.refunds[k].watchdog
    requires var w := WatchdogDone(b, id, g); k < |w.refunds| && w.refunds[k] == b.refunds[k] && id < |w.records|
    ensures WatchdogDone(Stepped(b, k, due, stage, credits, queued), id, g) ==
              Stepped(WatchdogDone(b, id, g), k, due, stage, credits, queued)
  {
    var r := b.records[id];
    if r.watched && ScriptRecord(r, false, g.script).1 {
      SteppedCommutesWithPaying(b, id, k, g, due, stage, credits, queued);
    } else if r.watched {
      FireAdds(r, g, credits, queued);
      assert b.records[id := Added(r, credits, queued)][id := Added(Fire(r, g), credits, queued)]
          == b.records[id := Fire(r, g)][id := Added(Fire(r, g), credits, queued)];
    }
  }

  /** How a step changes its rollback, and how often it pays. */
  function EffectOf(x: Refund, e: Event): Option<(bool, Stage, nat, nat)> {
    match e
    case Load(_, loads) =>
      if x.stage == Loading then Some((loads && x.due, if loads then Paying else Ending, 0, 0)) else None
    case Pay(_, credit) =>
      if x.stage == Paying
      then Some((x.due && credit == Lost, if credit == Fine then Ending else Queueing,
                 if credit == Lost then 0 else 1, 0))
      else None
    case Enqueue(_, queues) =>
      if x.stage == Queueing then Some((false, Ending, 0, if queues then 1 else 0)) else None
    case _ => None
  }

  lemma ApplyIsStep(b: Bank, k: nat, e: Event)
    requires k < |b.refunds| && b.refunds[k].id < |b.records|
    requires (e.Load? || e.Pay? || e.Enqueue?) && e.number == k
    ensures Apply(b, e).0 ==
              match EffectOf(b.refunds[k], e)
              case None => b
              case Some((due, stage, credits, queued)) => Stepped(b, k, due, stage, credits, queued)
  {
    var r := b.records[b.refunds[k].id];
    assert b.records[b.refunds[k].id := r] == b.records;
    assert Added(r, 0, 0) == r;
  }

  /** A step of a rollback and all steps of the watchdog of the same reservation change places. */
  lemma WatchdogCommutes(b: Bank, id: nat, k: nat, g: RollbackFaults, e: Event)
    requires k < |b.refunds| && b.refunds[k].id == id < |b.records| && !b.refunds[k].watchdog
    requires (e.Load? || e.Pay? || e.Enqueue?) && e.number == k
    ensures var n := |b.refunds|;
            After(Apply(b, e).0, WatchdogSteps(id, n, g)) == Apply(After(b, WatchdogSteps(id, n, g)), e).0
    ensures var b' := Apply(b, e).0;
            |b'.refunds| == |b.refunds| && b'.refunds[k].id == id < |b'.records| && !b'.refunds[k].watchdog
  {
    WatchdogRuns(b, id, g);
    ApplyIsStep(b, k, e);
    SameRefund(b, id, k, g);
    ApplyIsStep(WatchdogDone(b, id, g), k, e);
    match EffectOf(b.refunds[k], e)
    case None =>
    case Some((due, stage, credits, queued)) =>
      SteppedCommutes(b, id, k, g, due, stage, credits, queued);
      WatchdogRuns(Stepped(b, k, due, stage, credits, queued), id, g);
  }

  /** So it does not matter at which await of a rollback the watchdog takes its steps. */
  lemma AnyAwait(b: Bank, id: nat, k: nat, f: RollbackFaults, g: RollbackFaults, n: nat)
    requires k < |b.refunds| && b.refunds[k].id == id < |b.records| && !b.refunds[k].watchdog && n < 4
    ensures var steps := WatchdogSteps(id, |b.refunds|, g);
            PaidBack(b, k, f, AtAwait(n, steps)) == PaidBack(WatchdogDone(b, id, g), k, f, NOTHING)
  {
    WatchdogRuns(b, id, g);
    var load, pay, queue := Load(k, f.loads), Pay(k, f.credit), Enqueue(k, f.queues);
    WatchdogCommutes(b, id, k, g, load);
    var b1 := Apply(b, load).0;
    WatchdogCommutes(b1, id, k, g, pay);
    var b2 := Apply(b1, pay).0;
    WatchdogCommutes(b2, id, k, g, queue);
  }

  /** `n` credits, then `n'` more. */
  lemma CreditedTwice(balances: seq<int>, r: Record, n: nat, r': Record, n': nat)
    requires r'.account == r.account && r'.amount == r.amount
    ensures Credited(Credited(balances, r, n), r', n') == Credited(balances, r, n + n')
  {
    assert (n + n') * r.amount == n * r.amount + n' * r.amount;
    DepositTwice(balances, r.account, n * r.amount, n' * r.amount);
  }

  lemma DepositTwice(balances: seq<int>, account: nat, m: int, n: int)
    ensures Deposit(Deposit(balances, account, m), account, n) == Deposit(balances, account, m + n)
  {
  }

  /** What a rollback leaves of reservation and wallets. */
  predicate Leaves(b': Bank, b: Bank, id: nat, was: Record, r: Record) {
    && r.refunds >= was.refunds
    && b'.records == (if id < |b.records| then b.records[id := r] else b.records)
    && b'.balances == Credited(b.balances, was, r.refunds - was.refunds)
  }

  lemma LeavesTwice(b: Bank, b1: Bank, b2: Bank, id: nat, was: Record, r: Record, r': Record)
    requires id < |b.records| && Leaves(b1, b, id, was, r) && Leaves(b2, b1, id, r, r')
    requires r.account == was.account && r.amount == was.amount
    ensures Leaves(b2, b, id, was, r')
  {
    CreditedTwice(b.balances, was, r.refunds - was.refunds, r, r'.refunds - r.refunds);
    assert b.records[id := r][id := r'] == b.records[id := r'];
  }

  lemma PaysBackLeaves(b: Bank, k: nat, f: RollbackFaults)
    requires IsAt(b, k, Loading)
    ensures var id := b.refunds[k].id;
            Leaves(PaidBack(b, k, f, NOTHING), b, id, b.records[id], Credit(b.records[id], f).(watched := false))
  {
    PaysBack(b, k, f);
  }

  lemma WatchdogLeaves(b: Bank, id: nat, g: RollbackFaults)
    requires id < |b.records|
    ensures Leaves(WatchdogDone(b, id, g), b, id, b.records[id], Fire(b.records[id], g))
  {
    assert b.records[id := b.records[id]] == b.records;
  }

  lemma StillLoading(b: Bank, id: nat, k: nat, g: RollbackFaults)
    requires IsAt(b, k, Loading) && b.refunds[k].id == id && !b.refunds[k].watchdog
    ensures IsAt(WatchdogDone(b, id, g), k, Loading) && WatchdogDone(b, id, g).refunds[k].id == id
  {
    SameRefund(b, id, k, g);
  }

  /** The bank to which the rest of a rollback is left when the watchdog has taken its steps. */
  lemma BankAround(b: Bank, id: nat, k: nat, f: RollbackFaults, g: RollbackFaults, n: nat) returns (w: Bank)
    requires IsAt(b, k, Loading) && b.refunds[k].id == id && !b.refunds[k].watchdog && n < 4
    ensures PaidBack(b, k, f, AtAwait(n, WatchdogSteps(id, |b.refunds|, g))) == PaidBack(w, k, f, NOTHING)
    ensures IsAt(w, k, Loading) && w.refunds[k].id == id
    ensures Leaves(w, b, id, b.records[id], Fire(b.records[id], g))
  {
    w := WatchdogDone(b, id, g);
    AnyAwait(b, id, k, f, g, n);
    StillLoading(b, id, k, g);
    WatchdogLeaves(b, id, g);
  }

  lemma RunsAround(b: Bank, id: nat, k: nat, f: RollbackFaults, g: RollbackFaults, n: nat)
    requires IsAt(b, k, Loading) && b.refunds[k].id == id && !b.refunds[k].watchdog && n < 4
    ensures var b' := PaidBack(b, k, f, AtAwait(n, WatchdogSteps(id, |b.refunds|, g)));
            Leaves(b', b, id, b.records[id], Credit(Fire(b.records[id], g), f).(watched := false))
  {
    var w := BankAround(b, id, k, f, g, n);
    var fired := Fire(b.records[id], g);
    PaysBackLeaves(w, k, f);
    LeavesTwice(b, w, PaidBack(w, k, f, NOTHING), id, b.records[id], fired, Credit(fired, f).(watched := false));
  }

  /** An undisturbed rollback, and one during which the watchdog goes off at whichever await, do to reservation and
      wallets what `RollbackAround` says. */
  lemma RollbackRuns(b: Bank, id: nat, allow: bool, f: RollbackFaults, during: Option<RollbackFaults>, n: nat)
    requires id < |b.records| && n < 4
    ensures var (r, ok) := RollbackAround(b.records[id], allow, f, during);
            var steps := if during == None then [] else WatchdogSteps(id, |b.refunds| + 1, during.value);
            var (b', ok') := Rollback(b, Script(id, allow, f.script), f, AtAwait(n, steps));
            ok' == ok && Leaves(b', b, id, b.records[id], r)
  {
    var (r, goesOn) := ScriptRecord(b.records[id], allow, f.script);
    if goesOn {
      var k := |b.refunds|;
      var b0 := Started(b, id, b.records[id], allow, f.script, false).0;
      if during == None {
        PaysBackLeaves(b0, k, f);
        LeavesTwice(b, b0, PaidBack(b0, k, f, NOTHING), id, b.records[id], r, Credit(r, f).(watched := false));
      } else {
        RunsAround(b0, id, k, f, during.value, n);
        var end := PaidBack(b0, k, f, AtAwait(n, WatchdogSteps(id, k + 1, during.value)));
        LeavesTwice(b, b0, end, id, b.records[id], r, Credit(Fire(r, during.value), f).(watched := false));
      }
    }
  }

  const FINE := RollbackFaults(Fine, true, Fine, true)

  /** One account with one reservation of all its chips. */
  function Reserved(amount: nat): Bank {
    Bank([0], [Fresh(0, amount)], [])
  }

  /** Without any fault chips can be created: a rollback after the watchdog's returns them again. */
  lemma WatchdogAndRollbackRefundTwice(amount: nat, allow: bool)
    ensures var b := After(Reserved(amount), WatchdogSteps(0, 0, FINE));
            Rollback(b, Script(0, allow, Fine), FINE, NOTHING).0.balances == [2 * amount]
  {
    WatchdogRuns(Reserved(amount), 0, FINE);
    RolledBackIsPaidAgain(WatchdogDone(Reserved(amount), 0, FINE), amount, allow);
  }

  lemma RolledBackIsPaidAgain(b: Bank, amount: nat, allow: bool)
    requires b.balances == [amount] && b.records == [Record(0, amount, RolledBack, 1, 0, 1, false)]
    ensures Rollback(b, Script(0, allow, Fine), FINE, NOTHING).0.balances == [2 * amount]
  {
    RollbackRuns(b, 0, allow, FINE, None, 0);
    OnceMore(b.balances, b.records[0], amount);
  }

  lemma OnceMore(balances: seq<int>, r: Record, n: int)
    requires balances == [n] && r.account == 0
    ensures Credited(balances, r, 1) == [n + r.amount] && Credited(balances, r, 2) == [n + 2 * r.amount]
  {
  }

  lemma FreshAround(amount: nat, allow: bool)
    ensures RollbackAround(Fresh(0, amount), allow, FINE, Some(FINE)).0 == Record(0, amount, RolledBack, 2, 0, 2, false)
  {
  }

  lemma PaidTwice(b: Bank, amount: nat)
    requires Leaves(b, Reserved(amount), 0, Fresh(0, amount), Record(0, amount, RolledBack, 2, 0, 2, false))
    ensures b.balances == [2 * amount]
  {
    OnceMore([0], Fresh(0, amount), 0);
  }

  lemma WokenIsPaidTwice(b: Bank, amount: nat, allow: bool, f: RollbackFaults, n: nat, others: Others)
    requires n < 4 && b == Reserved(amount) && f == FINE && others == AtAwait(n, WatchdogSteps(0, |b.refunds| + 1, f))
    ensures Rollback(b, Script(0, allow, f.script), f, others).0.balances == [2 * amount]
  {
    RollbackRuns(b, 0, allow, f, Some(f), n);
    FreshAround(amount, allow);
    PaidTwice(Rollback(b, Script(0, allow, f.script), f, others).0, amount);
  }

  /** So does the watchdog when it wakes at any await of a rollback, before that has come to cancel it. */
  lemma WatchdogInRollbackRefundsTwice(amount: nat, allow: bool, n: nat)
    requires n < 4
    ensures var others := AtAwait(n, WatchdogSteps(0, 1, FINE));
            Rollback(Reserved(amount), Script(0, allow, Fine), FINE, others).0.balances == [2 * amount]
  {
    WokenIsPaidTwice(Reserved(amount), amount, allow, FINE, n, AtAwait(n, WatchdogSteps(0, 1, FINE)));
  }

  /** But a watchdog that has woken before the rollback and not paid when that ends is stopped, and pays nothing. */
  lemma StoppedWatchdogPaysNothing(amount: nat, allow: bool)
    ensures var b := Rollback(Apply(Reserved(amount), Wake(0, Fine)).0, Script(0, allow, Fine), FINE, NOTHING).0;
            b.balances == [amount] && |b.refunds| == 2 && b.refunds[0].stage == Over
  {
    var b := Apply(Reserved(amount), Wake(0, Fine)).0;
    assert b.refunds == [Refund(0, true, true, Loading)] && b.records[0].status == RolledBack;
    StartsAndPaysBack(b, 0, b.records[0], allow, FINE, false);
  }

  // ---------------------------------------------------------------------------------------------
  // From the reservation to its end
  // ---------------------------------------------------------------------------------------------

  /** A reservation is granted exactly when nothing is asked for, or the balance seen suffices and no call fails. One
      that is granted takes its chips out of the account that asked for them, and out of no other, and is recorded for
      that account. */
  lemma ReservedExactlyWhen(b: Bank, account: nat, amount: int, seen: Option<int>, debit: Fault, created: bool,
                            refund: Fault)
    requires account < |b.balances|
    ensures var (b', ok) := Apply(b, Reserve(account, amount, seen, debit, created, refund));
            && (ok <==> amount <= 0 || (seen.Some? && seen.value >= amount && debit == Fine && created))
            && (ok && amount > 0 ==>
                  && b'.records == b.records + [Record(account, amount, Pending, 0, 0, 0, true)]
                  && |b'.balances| == |b.balances| && b'.balances[account] == b.balances[account] - amount)
            && (!ok || amount <= 0 ==> b'.records == b.records)
            && (forall a :: 0 <= a < |b.balances| && a != account ==> b'.balances[a] == b.balances[a])
  {
  }

  /** A rollback without any fault pays a pending reservation back. */
  lemma FineRollback(b: Bank, id: nat, allow: bool)
    requires id < |b.records| && b.records[id].status == Pending
    ensures var (b', ok) := Rollback(b, Script(id, allow, Fine), FINE, NOTHING);
            ok && b'.balances == Deposit(b.balances, b.records[id].account, b.records[id].amount)
  {
    RollbackRuns(b, id, allow, FINE, None, 0);
    assert 1 * b.records[id].amount == b.records[id].amount;
  }

  /** The bank with a new reservation. */
  function Granted(b: Bank, account: nat, amount: nat): Bank
    requires account < |b.balances|
  {
    b.(balances := b.balances[account := b.balances[account] - amount], records := b.records + [Fresh(account, amount)])
  }

  /** A granted reservation that is rolled back without any fault leaves every single wallet as it was. */
  lemma ReserveAndRollBack(b: Bank, account: nat, amount: int, seen: Option<int>, refund: Fault, allow: bool)
    requires account < |b.balances| && amount > 0 && seen.Some? && seen.value >= amount
    ensures var b' := Apply(b, Reserve(account, amount, seen, Fine, true, refund)).0;
            var (b'', ok) := Rollback(b', Script(|b.records|, allow, Fine), FINE, NOTHING);
            ok && b''.balances == b.balances
  {
    var b' := Granted(b, account, amount);
    assert Apply(b, Reserve(account, amount, seen, Fine, true, refund)).0 == b';
    FineRollback(b', |b.records|, allow);
    assert Deposit(b'.balances, account, amount) == b.balances;
  }

  /** A commit succeeds exactly when its call comes back and the reservation is pending or committed already; one whose
      reply is lost takes effect too. After a success it is committed, without a watchdog, and no script without
      permission takes its chips out again. */
  lemma CommittedExactlyWhen(b: Bank, id: nat, fault: Fault, script: Fault)
    requires id < |b.records|
    ensures var (b', ok) := Apply(b, Commit(id, fault));
            && (ok <==> fault == Fine && b.records[id].status in {Pending, Committed})
            && |b'.records| == |b.records|
            && (b'.records[id].status == Committed <==>
                  b.records[id].status == Committed || (b.records[id].status == Pending && fault != Lost))
            && (ok ==>
                  && b'.records[id].status == Committed && !b'.records[id].watched
                  && !Apply(b', Wake(id, script)).1 && Apply(b', Wake(id, script)).0 == b'
                  && !Apply(b', Script(id, false, script)).1 && Apply(b', Script(id, false, script)).0 == b')
  {
    var b' := Apply(b, Commit(id, fault)).0;
    assert b'.records[id := b'.records[id]] == b'.records;
  }

  /** A rollback goes on to the credit exactly when its script's call comes back and there is a reservation that is
      pending, or rolled back already, or committed and allowed to be undone. Of a reservation that does not exist
      nothing is committed or rolled back. */
  lemma RollbackGoesOnExactlyWhen(b: Bank, id: nat, allow: bool, script: Fault)
    ensures Apply(b, Script(id, allow, script)).1 <==>
              && script == Fine && id < |b.records|
              && (b.records[id].status in {Pending, RolledBack} || (b.records[id].status == Committed && allow))
    ensures id >= |b.records| ==>
              && Apply(b, Script(id, allow, script)) == (b, false) && Apply(b, Wake(id, script)) == (b, false)
              && Apply(b, Commit(id, script)) == (b, false)
  {
  }
}
