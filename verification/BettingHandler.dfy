/** The two-phase commit of a bet (pokerapp/betting_handler.py): reserve, take the table lock with retries,
    commit, apply, save with a version check, and roll back when a step fails. */
module BettingHandler {
  import opened Basics
  import opened WalletService

  // ---------------------------------------------------------------------------------------------
  // What the handler does not decide
  // ---------------------------------------------------------------------------------------------

  /** A moment at which the reservation's watchdog may get its turn. */
  datatype Pause = Pause(fires: bool, faults: RollbackFaults)

  /** One attempt to take the table lock. After a timeout the queue is measured, which may itself raise. */
  datatype LockTry =
    | Acquired
    | TimedOut(depth: int, estimate: real, age: real)
    | TimedOutBlind
    | Broken

  datatype Attempt = Attempt(wait: Pause, lock: LockTry)

  datatype Load = NoGame | Game(table: Table, playersTurn: bool) | LoadRaises

  datatype Saving = Saved | Conflict | RaisedUnsaved | RaisedSaved

  /** What happens under the table lock. */
  datatype Inner = Inner(load: Load, beforeCommit: Pause, commit: Fault, applies: bool, save: Saving)

  datatype Seat = Seat(userId: int, folded: bool, bet: int, chips: int)

  datatype Table = Table(seats: seq<Seat>, currentBet: int)

  datatype Action = Fold | Check | Call | Raise | AllIn | Unknown

  datatype Request = Request(user: int, action: Action, amount: Option<int>)

  /** `table` is what the first load finds, `reserves` whether the wallet grants the reservation; `duringRollback` is
      between the script of a rollback and its end, and `afterwards` is what happens to a watchdog that is still to
      fire when the action is over. */
  datatype World = World(table: Option<Table>, loadRaises: bool, reserves: bool,
                         attempts: seq<Attempt>, inner: Inner, beforeRollback: Pause, rollback: RollbackFaults,
                         duringRollback: Pause, afterwards: RollbackFaults)

  /** Every one of `max_retries + 1` attempts meets something. */
  datatype Policy = Policy(smart: bool, maxRetries: nat, depthLimit: int, waitLimit: real, grace: real, ttl: real)

  // ---------------------------------------------------------------------------------------------
  // What the handler does
  // ---------------------------------------------------------------------------------------------

  datatype Step = Entered | CommitCall(ok: bool) | SaveCall(saved: bool) | RollbackCall(allowCommitted: bool)

  /** The reservation, how often the table was saved, and the steps taken so far. */
  datatype State = State(reservation: Option<Record>, saves: nat, steps: seq<Step>)

  /** A phase that ends the action returns its success, or it raises. */
  datatype Outcome = Returned(success: bool) | Raised

  function FindSeat(seats: seq<Seat>, user: int): Option<Seat> {
    if seats == [] then None else if seats[0].userId == user then Some(seats[0]) else FindSeat(seats[1..], user)
  }

  /** `_validate_action`: the chips the action needs, if it is valid. */
  function Validate(t: Option<Table>, r: Request): (required: Option<nat>)
  {
    if t == None then None
    else
      match FindSeat(t.value.seats, r.user)
      case None => None
      case Some(p) =>
        if p.folded then None
        else
          var toCall := Max(t.value.currentBet - p.bet, 0);
          match r.action
          case Fold => Some(0)
          case Check => if toCall > 0 then None else Some(0)
          case Call => Some(toCall)
          case Raise =>
            if r.amount == None || r.amount.value <= t.value.currentBet then None
            else Some(Max(r.amount.value - p.bet, 0))
          case AllIn => Some(Max(p.chips, 0))
          case Unknown => None
  }

  /** `_should_retry`; a missing expiry never comes. */
  predicate ShouldRetry(h: Policy, estimate: real, untilExpiry: Option<real>, depth: int) {
    && depth <= h.depthLimit
    && (untilExpiry.Some? ==> estimate <= untilExpiry.value)
    && estimate <= h.waitLimit
    && (untilExpiry.Some? ==> untilExpiry.value >= estimate + h.grace)
  }

  function UntilExpiry(h: Policy, reserved: bool, age: real): Option<real> {
    if !reserved then None else Some(if h.ttl - age > 0.0 then h.ttl - age else 0.0)
  }

  /** How the watchdog's rollback goes, if it fires. */
  function At(p: Pause): Option<RollbackFaults> {
    if p.fires then Some(p.faults) else None
  }

  /** Time passes; the watchdog may fire. */
  function Wait(s: State, p: Pause): State {
    if p.fires && s.reservation.Some? then s.(reservation := Some(Fire(s.reservation.value, p.faults))) else s
  }

  /** `_rollback` */
  function Undo(s: State, w: World, allowCommitted: bool): State {
    if s.reservation == None then s
    else
      var waited := Wait(s, w.beforeRollback);
      var r := RollbackAround(waited.reservation.value, allowCommitted, w.rollback, At(w.duringRollback)).0;
      waited.(reservation := Some(r),
              steps := s.steps + [RollbackCall(allowCommitted)])
  }

  /** Steps 4 and 5 of `_commit_and_save`. */
  function ApplyAndSave(s: State, w: World): (State, bool) {
    var committed := s.reservation.Some?;
    if !w.inner.applies then (if committed then Undo(s, w, true) else s, false)
    else
      var s' := s.(saves := s.saves + (if w.inner.save in {Saved, RaisedSaved} then 1 else 0),
                   steps := s.steps + [SaveCall(w.inner.save == Saved)]);
      match w.inner.save
      case Saved => (s', true)
      case Conflict => (Undo(s', w, committed), false)
      case _ => (if committed then Undo(s', w, true) else s', false)
  }

  /** The game is there and it is the player's turn. */
  predicate OurTurn(w: World) {
    w.inner.load.Game? && w.inner.load.playersTurn
  }

  /** Step 3: the reservation is committed. */
  function CommitNow(s: State, w: World): (State, bool)
    requires s.reservation.Some?
  {
    var waited := Wait(s, w.inner.beforeCommit);
    var (r, ok) := CommitRecord(waited.reservation.value, w.inner.commit);
    (waited.(reservation := Some(r), steps := s.steps + [CommitCall(ok)]), ok)
  }

  /** `_commit_and_save` */
  function CommitPhase(s: State, w: World): (State, bool) {
    var s0 := s.(steps := s.steps + [Entered]);
    match w.inner.load
    case LoadRaises => (s0, false)
    case NoGame => (Undo(s0, w, false), false)
    case Game(_, turn) =>
      if !turn then (Undo(s0, w, false), false)
      else if s.reservation == None then ApplyAndSave(s0, w)
      else
        var (s1, ok) := CommitNow(s0, w);
        if !ok then (Undo(s1, w, true), false) else ApplyAndSave(s1, w)
  }

  /** How the attempts to get the lock end: with the lock, with giving up, or with another error. */
  datatype Queued = Got(state: State) | GaveUp(state: State) | Failed(state: State)

  /** Attempt `k` and those after it. */
  function Queue(s: State, h: Policy, w: World, k: nat): Queued
    requires |w.attempts| > h.maxRetries && k <= h.maxRetries
    decreases h.maxRetries - k
  {
    var waited := Wait(s, w.attempts[k].wait);
    match w.attempts[k].lock
    case Acquired => Got(waited)
    case Broken => Failed(waited)
    case TimedOutBlind => if k == h.maxRetries || !h.smart then GaveUp(waited) else Failed(waited)
    case TimedOut(depth, estimate, age) =>
      if k == h.maxRetries || !h.smart
         || !ShouldRetry(h, estimate, UntilExpiry(h, waited.reservation.Some?, age), depth) then GaveUp(waited)
      else Queue(waited, h, w, k + 1)
  }

  /** `_commit_with_retry` */
  function RetryPhase(s: State, h: Policy, w: World): (State, Outcome)
    requires |w.attempts| > h.maxRetries
  {
    match Queue(s, h, w, 0)
    case Got(s') => (CommitPhase(s', w).0, Returned(CommitPhase(s', w).1))
    case GaveUp(s') => (Undo(s', w, false), Returned(false))
    case Failed(s') => (s', Raised)
  }

  /** `_reserve_chips` for a positive amount: a fresh reservation, if the wallet grants one. The player's account is the
      only one here. */
  function Reserved(s: State, required: nat): State {
    s.(reservation := Some(Fresh(0, required)))
  }

  /** `handle_betting_action` */
  function Handle(s: State, h: Policy, r: Request, w: World): (State, bool)
    requires |w.attempts| > h.maxRetries && s.reservation == None
  {
    if w.loadRaises then (s, false)
    else
      match Validate(w.table, r)
      case None => (s, false)
      case Some(required) =>
        if required > 0 && !w.reserves then (s, false)
        else
          var s' := if required > 0 then Reserved(s, required) else s;
          match RetryPhase(s', h, w)
          case (s'', Returned(success)) => (s'', success)
          case (s'', Raised) => (Undo(s'', w, false), false)
  }

  class Handler {
    const policy: Policy
    var reservation: Option<Record>
    ghost var saves: nat
    ghost var steps: seq<Step>

    constructor (policy: Policy)
      ensures this.policy == policy && View() == State(None, 0, [])
    {
      this.policy := policy;
      reservation, saves, steps := None, 0, [];
    }

    ghost function View(): State
      reads this
    {
      State(reservation, saves, steps)
    }

    method Sleep(p: Pause)
      modifies this`reservation
      ensures View() == Wait(old(View()), p)
    {
      if p.fires && reservation.Some? {
        reservation := Some(Fire(reservation.value, p.faults));
      }
    }

    method Rollback(w: World, allowCommitted: bool)
      modifies this`reservation, this`steps
      ensures View() == Undo(old(View()), w, allowCommitted)
    {
      if reservation == None {
        return;
      }
      Sleep(w.beforeRollback);
      steps := steps + [RollbackCall(allowCommitted)];
      var (scripted, goesOn) := ScriptRecord(reservation.value, allowCommitted, w.rollback.script);
      reservation := Some(scripted);
      if goesOn {
        Sleep(w.duringRollback);
        reservation := Some(Credit(reservation.value, w.rollback).(watched := false));
      }
    }

    method CommitAndSave(w: World) returns (success: bool, committed: bool)
      modifies this
      ensures View() == CommitPhase(old(View()), w).0
      ensures success == CommitPhase(old(View()), w).1
    {
      committed := false;
      steps := steps + [Entered];
      if w.inner.load == LoadRaises {
        return false, committed;
      }
      if w.inner.load == NoGame || !w.inner.load.playersTurn {
        Rollback(w, false);
        return false, committed;
      }
      if reservation.Some? {
        Sleep(w.inner.beforeCommit);
        var (r, ok) := CommitRecord(reservation.value, w.inner.commit);
        reservation := Some(r);
        steps := steps + [CommitCall(ok)];
        if !ok {
          Rollback(w, true);
          return false, committed;
        }
        committed := true;
      }
      if !w.inner.applies {
        if committed {
          Rollback(w, true);
        }
        return false, committed;
      }
      saves := saves + if w.inner.save in {Saved, RaisedSaved} then 1 else 0;
      steps := steps + [SaveCall(w.inner.save == Saved)];
      if w.inner.save == Conflict {
        Rollback(w, committed);
        return false, committed;
      }
      if w.inner.save != Saved {
        if committed {
          Rollback(w, true);
        }
        return false, committed;
      }
      return true, committed;
    }

    method CommitWithRetry(w: World) returns (out: Outcome)
      requires |w.attempts| > policy.maxRetries
      modifies this
      ensures View() == RetryPhase(old(View()), policy, w).0
      ensures out == RetryPhase(old(View()), policy, w).1
    {
      var success, committed := false, false;
      if !policy.smart || policy.maxRetries == 0 {
        Sleep(w.attempts[0].wait);
        match w.attempts[0].lock
        case Acquired =>
          success, committed := CommitAndSave(w);
          return Returned(success);
        case Broken =>
          return Raised;
        case _ =>
          Rollback(w, false);
          return Returned(false);
      }
      for attempt := 0 to policy.maxRetries + 1
        invariant !committed
        invariant attempt <= policy.maxRetries
        invariant Queue(View(), policy, w, attempt) == Queue(old(View()), policy, w, 0)
      {
        Sleep(w.attempts[attempt].wait);
        match w.attempts[attempt].lock
        case Acquired =>
          success, committed := CommitAndSave(w);
          return Returned(success);
        case Broken =>
          return Raised;
        case TimedOutBlind =>
          if attempt < policy.maxRetries {
            return Raised;
          }
          Rollback(w, committed);
          return Returned(false);
        case TimedOut(depth, estimate, age) =>
          if attempt == policy.maxRetries {
            Rollback(w, committed);
            return Returned(false);
          }
          if !ShouldRetry(policy, estimate, UntilExpiry(policy, reservation.Some?, age), depth) {
            Rollback(w, false);
            return Returned(false);
          }
      }
      assert false;   // the exit after the loop is unreachable, as the source remarks
    }

    method HandleBettingAction(r: Request, w: World) returns (success: bool)
      requires |w.attempts| > policy.maxRetries && reservation == None
      modifies this
      ensures View() == Handle(old(View()), policy, r, w).0
      ensures success == Handle(old(View()), policy, r, w).1
    {
      if w.loadRaises {
        return false;
      }
      var required := Validate(w.table, r);
      if required == None {
        return false;
      }
      if required.value > 0 {
        if !w.reserves {
          return false;
        }
        reservation := Some(Fresh(0, required.value));
      }
      var out := CommitWithRetry(w);
      if out == Raised {
        Rollback(w, false);
        return false;
      }
      return out.success;
    }
  }

  // ---------------------------------------------------------------------------------------------
  // What the checks ensure
  // ---------------------------------------------------------------------------------------------

  /** A validated action that stays in the hand without going all in covers the current bet with the required
      chips; a raise tops it, to exactly the amount asked for, and nobody pays more than that takes. */
  lemma ValidatedActionCovers(t: Table, r: Request)
    requires Validate(Some(t), r).Some?
    ensures FindSeat(t.seats, r.user).Some?
    ensures var p := FindSeat(t.seats, r.user).value;
            var n := Validate(Some(t), r).value;
            && p.userId == r.user && !p.folded && r.action != Unknown
            && (r.action in {Check, Call} ==> p.bet + n == Max(p.bet, t.currentBet))
            && (r.action == Raise ==> r.amount.Some? && p.bet + n == Max(p.bet, r.amount.value) > t.currentBet)
            && (r.action == AllIn ==> n == Max(p.chips, 0))
            && (r.action in {Fold, Check} ==> n == 0)
  {
    SeatFound(t.seats, r.user);
  }

  lemma SeatFound(seats: seq<Seat>, user: int)
    requires FindSeat(seats, user).Some?
    ensures FindSeat(seats, user).value.userId == user
  {
  }

  /** Seat `i` is the first one of the user. */
  ghost predicate SitsAt(seats: seq<Seat>, user: int, i: nat) {
    i < |seats| && seats[i].userId == user && forall j :: 0 <= j < i ==> seats[j].userId != user
  }

  lemma {:induction false} SeatIsFirst(seats: seq<Seat>, user: int) returns (i: nat)
    ensures FindSeat(seats, user).Some? ==> SitsAt(seats, user, i) && FindSeat(seats, user).value == seats[i]
    ensures FindSeat(seats, user) == None ==> forall j :: 0 <= j < |seats| ==> seats[j].userId != user
  {
    i := 0;
    if seats != [] && seats[0].userId != user {
      var later := SeatIsFirst(seats[1..], user);
      i := later + 1;
    }
  }

  /** A player at the table who has not folded may fold and go all in, check if there is nothing to call, call, and
      raise to an amount above the current bet. */
  predicate Allowed(t: Table, p: Seat, r: Request) {
    && !p.folded
    && match r.action
       case Fold => true
       case Check => p.bet >= t.currentBet
       case Call => true
       case Raise => r.amount.Some? && r.amount.value > t.currentBet
       case AllIn => true
       case Unknown => false
  }

  /** A request is valid exactly when there is a game, its player sits at the table, and may do that. */
  lemma ValidExactlyWhen(t: Option<Table>, r: Request)
    ensures Validate(t, r).Some? <==>
              t.Some? && exists i: nat :: SitsAt(t.value.seats, r.user, i) && Allowed(t.value, t.value.seats[i], r)
  {
    if t.Some? {
      var i := SeatIsFirst(t.value.seats, r.user);
      if FindSeat(t.value.seats, r.user).Some? {
        forall j: nat | SitsAt(t.value.seats, r.user, j) ensures j == i {
        }
        assert Validate(t, r).Some? <==> Allowed(t.value, t.value.seats[i], r);
      }
    }
  }

  /** The handler retries exactly when the queue is short, the wait is tolerable, and a reservation will outlive
      the estimated wait and the grace period; for an expired reservation only if both are nothing. Without a
      reservation nothing expires. */
  lemma RetriesExactlyWhen(h: Policy, reserved: bool, age: real, estimate: real, depth: int)
    requires h.grace >= 0.0 && estimate >= 0.0
    ensures ShouldRetry(h, estimate, UntilExpiry(h, reserved, age), depth) <==>
              && depth <= h.depthLimit && estimate <= h.waitLimit
              && (reserved ==> age + estimate + h.grace <= h.ttl || estimate + h.grace == 0.0)
  {
  }

  // ---------------------------------------------------------------------------------------------
  // Until the lock is held
  // ---------------------------------------------------------------------------------------------

  /** A reservation that nobody has committed; while it is pending nothing was paid back for it. */
  ghost predicate Open(s: State) {
    s.reservation.Some? ==>
      var r := s.reservation.value;
      && r.status != Committed
      && (r.status == Pending ==> r.refunds == 0 && r.owed == 0 && r.payments == 0)
      && (r.watched ==> r.status == Pending)
  }

  lemma WaitKeepsOpen(s: State, p: Pause)
    requires Open(s)
    ensures Open(Wait(s, p)) && Wait(s, p) == s.(reservation := Wait(s, p).reservation)
    ensures s.reservation.Some? <==> Wait(s, p).reservation.Some?
  {
  }

  lemma {:induction false} QueueOnlyWaits(s: State, h: Policy, w: World, k: nat)
    requires |w.attempts| > h.maxRetries && k <= h.maxRetries && Open(s)
    ensures var s' := Queue(s, h, w, k).state;
            && Open(s') && s'.steps == s.steps && s'.saves == s.saves
            && (s.reservation.Some? <==> s'.reservation.Some?)
    decreases h.maxRetries - k
  {
    WaitKeepsOpen(s, w.attempts[k].wait);
    if Queue(s, h, w, k) != Got(Wait(s, w.attempts[k].wait))
       && Queue(s, h, w, k) != GaveUp(Wait(s, w.attempts[k].wait))
       && Queue(s, h, w, k) != Failed(Wait(s, w.attempts[k].wait)) {
      QueueOnlyWaits(Wait(s, w.attempts[k].wait), h, w, k + 1);
    }
  }

  /** The reservation that a request starts from, once it is validated and granted. */
  function Start(n: nat, required: nat): State {
    var s := State(None, n, []);
    if required > 0 then Reserved(s, required) else s
  }

  // ---------------------------------------------------------------------------------------------
  // Success
  // ---------------------------------------------------------------------------------------------

  lemma CommittedWhenSaved(s: State, w: World)
    requires Open(s) && CommitPhase(s, w).1
    ensures var s' := CommitPhase(s, w).0;
            && s'.saves == s.saves + 1
            && (s.reservation == None ==> s'.reservation == None && s'.steps == s.steps + [Entered] + [SaveCall(true)])
            && (s.reservation.Some? ==>
                  && s'.reservation == Some(s.reservation.value.(status := Committed, watched := false))
                  && s'.reservation.value.refunds == 0 && s'.reservation.value.owed == 0
                  && s'.reservation.value.payments == 0
                  && s'.steps == s.steps + [Entered] + [CommitCall(true)] + [SaveCall(true)])
  {
    if s.reservation.Some? {
      CommitNeedsPending(s.(steps := s.steps + [Entered]), w);
    }
  }

  lemma CommitNeedsPending(s: State, w: World)
    requires Open(s) && s.reservation.Some? && CommitNow(s, w).1
    ensures s.reservation.value.status == Pending
    ensures CommitNow(s, w).0.reservation == Some(s.reservation.value.(status := Committed, watched := false))
  {
  }

  lemma {:induction false} QueueKeepsAmount(s: State, h: Policy, w: World, k: nat)
    requires |w.attempts| > h.maxRetries && k <= h.maxRetries && s.reservation.Some?
    ensures var s' := Queue(s, h, w, k).state;
            && s'.reservation.Some?
            && s'.reservation.value.amount == s.reservation.value.amount
            && s'.reservation.value.account == s.reservation.value.account
    decreases h.maxRetries - k
  {
    var waited := Wait(s, w.attempts[k].wait);
    if Queue(s, h, w, k).state != waited {
      QueueKeepsAmount(waited, h, w, k + 1);
    }
  }

  /** A successful action has made exactly one commit of exactly the required chips, if there were any, and
      one version-checked save, in this order and under the lock; it has rolled nothing back. */
  lemma SuccessIsOneCommitAndOneSave(n: nat, h: Policy, r: Request, w: World)
    requires |w.attempts| > h.maxRetries && Handle(State(None, n, []), h, r, w).1
    ensures Validate(w.table, r).Some?
    ensures var required := Validate(w.table, r).value;
            var s' := Handle(State(None, n, []), h, r, w).0;
            && s'.saves == n + 1
            && (required == 0 ==> s' == State(None, n + 1, [Entered, SaveCall(true)]))
            && (required > 0 ==> s' == State(Some(Record(0, required, Committed, 0, 0, 0, false)), n + 1,
                                             [Entered, CommitCall(true), SaveCall(true)]))
  {
    var s0 := Start(n, Validate(w.table, r).value);
    QueueOnlyWaits(s0, h, w, 0);
    var s1 := Queue(s0, h, w, 0).state;
    assert Queue(s0, h, w, 0) == Got(s1);
    if s0.reservation.Some? {
      QueueKeepsAmount(s0, h, w, 0);
    }
    CommittedWhenSaved(s1, w);
  }

  /** What a successful action has paid. */
  function PaidIn(s: State): nat {
    if s.reservation == None then 0 else s.reservation.value.amount
  }

  /** The chips of a successful action are those of the table validated before the lock. They cover the bet of the table
      loaded under the lock exactly when the player's distance to it is no longer than what was validated: the distance
      to the first table's bet for a check or a call, and to the amount asked for, for a raise. */
  lemma CommittedActionCovers(n: nat, h: Policy, r: Request, w: World)
    requires |w.attempts| > h.maxRetries && Handle(State(None, n, []), h, r, w).1
    ensures w.table.Some? && FindSeat(w.table.value.seats, r.user).Some? && w.inner.load.Game?
    ensures r.action in {Check, Call, Raise} && FindSeat(w.inner.load.table.seats, r.user).Some? ==>
              var paid := PaidIn(Handle(State(None, n, []), h, r, w).0);
              var p := FindSeat(w.table.value.seats, r.user).value;
              var now := w.inner.load.table;
              var q := FindSeat(now.seats, r.user).value;
              && (r.action == Raise ==> r.amount.Some?)
              && var target := if r.action == Raise then r.amount.value else w.table.value.currentBet;
              q.bet + paid >= now.currentBet <==> now.currentBet - q.bet <= Max(target - p.bet, 0)
  {
    SuccessIsOneCommitAndOneSave(n, h, r, w);
    ValidatedActionCovers(w.table.value, r);
    SuccessHadTheTurn(n, h, r, w);
  }

  lemma SuccessHadTheTurn(n: nat, h: Policy, r: Request, w: World)
    requires |w.attempts| > h.maxRetries && Handle(State(None, n, []), h, r, w).1
    ensures OurTurn(w)
  {
  }

  // ---------------------------------------------------------------------------------------------
  // Failure
  // ---------------------------------------------------------------------------------------------

  lemma UndoOutcome(s: State, w: World, allow: bool)
    ensures Undo(s, w, allow).saves == s.saves
    ensures s.reservation.Some? <==> Undo(s, w, allow).reservation.Some?
    ensures s.reservation == None ==> Undo(s, w, allow) == s
    ensures s.reservation.Some? ==>
              var after := Undo(s, w, allow).reservation.value;
              && (after.status == Committed ==> w.rollback.script == Lost || !allow)
              && (after.status == Committed ==> s.reservation.value.status == Committed)
              && (s.reservation.value.status == Committed && w.rollback.script == Lost ==> after.status == Committed)
  {
  }

  lemma ApplyOutcome(s: State, w: World)
    requires s.reservation.Some? && s.reservation.value.status == Committed && !s.reservation.value.watched
    ensures var (s', ok) := ApplyAndSave(s, w);
            && s'.reservation.Some?
            && s'.saves == s.saves + (if w.inner.applies && w.inner.save in {Saved, RaisedSaved} then 1 else 0)
            && (s'.reservation.value.status == Committed <==> ok || w.rollback.script == Lost)
            && (ok <==> w.inner.applies && w.inner.save == Saved)
  {
  }

  lemma PhaseFailure(s: State, w: World)
    requires Open(s) && !CommitPhase(s, w).1
    ensures var s' := CommitPhase(s, w).0;
            && (w.inner.save != RaisedSaved ==> s'.saves == s.saves)
            && (s'.reservation.Some? && s'.reservation.value.status == Committed ==> w.rollback.script == Lost)
  {
    var s0 := s.(steps := s.steps + [Entered]);
    if OurTurn(w) && s.reservation.Some? {
      var (s1, ok) := CommitNow(s0, w);
      if ok {
        CommitNeedsPending(s0, w);
        ApplyOutcome(s1, w);
      } else {
        UndoOutcome(s1, w, true);
      }
    } else {
      UndoOutcome(s0, w, false);
    }
  }

  /** A failed action has not changed the table, unless a save took effect and raised; and its reservation is
      not left committed unless the rollback call itself failed. */
  lemma FailureLeavesNothingCommitted(n: nat, h: Policy, r: Request, w: World)
    requires |w.attempts| > h.maxRetries && !Handle(State(None, n, []), h, r, w).1
    ensures var s' := Handle(State(None, n, []), h, r, w).0;
            && (w.inner.save != RaisedSaved ==> s'.saves == n)
            && (s'.reservation.Some? && s'.reservation.value.status == Committed ==> w.rollback.script == Lost)
  {
    var required := Validate(w.table, r);
    if required.Some? {
      var s0 := Start(n, required.value);
      QueueOnlyWaits(s0, h, w, 0);
      var s1 := Queue(s0, h, w, 0).state;
      UndoOutcome(s1, w, false);
      if Queue(s0, h, w, 0).Got? && !CommitPhase(s1, w).1 {
        PhaseFailure(s1, w);
      }
    }
  }

  // ---------------------------------------------------------------------------------------------
  // How often
  // ---------------------------------------------------------------------------------------------

  /** The commit phase is entered at most once, and a rollback is the last step. */
  ghost predicate OnceOnly(steps: seq<Step>) {
    && (forall i, j :: 0 <= i < j < |steps| ==> steps[i] != Entered || steps[j] != Entered)
    && (forall i :: 0 <= i < |steps| && steps[i].RollbackCall? ==> i == |steps| - 1)
  }

  /** Steps after which another one, even a rollback, can follow. */
  ghost predicate Continues(steps: seq<Step>) {
    && (forall i, j :: 0 <= i < j < |steps| ==> steps[i] != Entered || steps[j] != Entered)
    && (forall i :: 0 <= i < |steps| ==> !steps[i].RollbackCall?)
  }

  lemma UndoSteps(s: State, w: World, allow: bool)
    requires Continues(s.steps)
    ensures OnceOnly(Undo(s, w, allow).steps)
  {
  }

  lemma ApplySteps(s: State, w: World)
    requires Continues(s.steps)
    ensures OnceOnly(ApplyAndSave(s, w).0.steps)
  {
    UndoSteps(s, w, true);
    var s' := s.(saves := s.saves + (if w.inner.save in {Saved, RaisedSaved} then 1 else 0),
                 steps := s.steps + [SaveCall(w.inner.save == Saved)]);
    UndoSteps(s', w, s.reservation.Some?);
  }

  lemma PhaseSteps(s: State, w: World)
    requires s.steps == []
    ensures OnceOnly(CommitPhase(s, w).0.steps)
  {
    var s0 := s.(steps := s.steps + [Entered]);
    if OurTurn(w) && s.reservation.Some? {
      var s1 := CommitNow(s0, w).0;
      ApplySteps(s1, w);
      UndoSteps(s1, w, true);
    } else {
      ApplySteps(s0, w);
      UndoSteps(s0, w, false);
    }
  }

  /** However many lock attempts time out, the action enters the commit phase at most once and rolls back at
      most once, as its last step. */
  lemma EntersOnceAndRollsBackOnce(n: nat, h: Policy, r: Request, w: World)
    requires |w.attempts| > h.maxRetries
    ensures OnceOnly(Handle(State(None, n, []), h, r, w).0.steps)
  {
    var required := Validate(w.table, r);
    if required.Some? {
      var s0 := Start(n, required.value);
      QueueOnlyWaits(s0, h, w, 0);
      PhaseSteps(Queue(s0, h, w, 0).state, w);
    }
  }

  /** The last step is a rollback. */
  predicate RolledBackAtLast(steps: seq<Step>) {
    steps != [] && steps[|steps| - 1].RollbackCall?
  }

  predicate CommitTried(steps: seq<Step>) {
    CommitCall(true) in steps || CommitCall(false) in steps
  }

  /** A rollback that ends these steps may undo a commit exactly if one was tried. */
  predicate AllowsWhatWasTried(steps: seq<Step>) {
    RolledBackAtLast(steps) ==> (steps[|steps| - 1].allowCommitted <==> CommitTried(steps))
  }

  lemma UndoRollsBackAtLast(s: State, w: World, allow: bool)
    requires s.reservation.Some? && allow == CommitTried(s.steps)
    ensures RolledBackAtLast(Undo(s, w, allow).steps) && AllowsWhatWasTried(Undo(s, w, allow).steps)
    ensures Undo(s, w, allow).steps == s.steps + [RollbackCall(allow)]
  {
  }

  lemma ApplyRollsBackAtLast(s: State, w: World)
    requires s.reservation.Some? && CommitTried(s.steps)
    ensures var (s', ok) := ApplyAndSave(s, w);
            (RolledBackAtLast(s'.steps) <==> !ok) && AllowsWhatWasTried(s'.steps)
  {
    UndoRollsBackAtLast(s, w, true);
    var s' := s.(saves := s.saves + (if w.inner.save in {Saved, RaisedSaved} then 1 else 0),
                 steps := s.steps + [SaveCall(w.inner.save == Saved)]);
    UndoRollsBackAtLast(s', w, true);
  }

  lemma PhaseRollsBackAtLast(s: State, w: World)
    requires s.reservation.Some? && s.steps == []
    ensures var (s', ok) := CommitPhase(s, w);
            && (RolledBackAtLast(s'.steps) <==> !ok && w.inner.load != LoadRaises) && AllowsWhatWasTried(s'.steps)
            && Entered in s'.steps
  {
    var s0 := s.(steps := s.steps + [Entered]);
    if OurTurn(w) {
      var (s1, ok) := CommitNow(s0, w);
      assert CommitCall(ok) in s1.steps;
      if ok {
        ApplyRollsBackAtLast(s1, w);
      } else {
        UndoRollsBackAtLast(s1, w, true);
      }
    } else {
      UndoRollsBackAtLast(s0, w, false);
    }
  }

  // ---------------------------------------------------------------------------------------------
  // What the player gets back
  // ---------------------------------------------------------------------------------------------

  /** The action is whole: either the table was saved with the bet and the reservation paid for it and nothing was
      repaid, or the table was not saved and the reserved chips were repaid exactly once, to the wallet or the queue. */
  ghost predicate Whole(n: nat, w: World, s: State) {
    && s.reservation.Some?
    && var r := Settled(w, s);
    || (s.saves == n + 1 && r.status == Committed && r.payments == 0)
    || (s.saves == n && r.status != Committed && r.payments == 1)
  }

  /** In the end, when a watchdog that is still armed has fired too. */
  function Settled(w: World, s: State): Record
    requires s.reservation.Some?
  {
    Fire(s.reservation.value, w.afterwards)
  }

  // What follows is said of the inputs alone.

  /** The attempt after which the handler stops trying for the lock. */
  predicate TriesAgain(h: Policy, w: World, k: nat, reserved: bool)
    requires k < |w.attempts|
  {
    && k < h.maxRetries && h.smart && w.attempts[k].lock.TimedOut?
    && var t := w.attempts[k].lock;
    ShouldRetry(h, t.estimate, UntilExpiry(h, reserved, t.age), t.depth)
  }

  function LastTry(h: Policy, w: World, k: nat, reserved: bool): (last: nat)
    requires k <= h.maxRetries < |w.attempts|
    ensures k <= last <= h.maxRetries
    decreases h.maxRetries - k
  {
    if TriesAgain(h, w, k, reserved) then LastTry(h, w, k + 1, reserved) else k
  }

  predicate GetsLock(h: Policy, w: World, reserved: bool)
    requires h.maxRetries < |w.attempts|
  {
    w.attempts[LastTry(h, w, 0, reserved)].lock.Acquired?
  }

  /** The first of two moments at which the watchdog fires; it fires only once. */
  function First(a: Option<RollbackFaults>, b: Option<RollbackFaults>): Option<RollbackFaults> {
    if a.Some? then a else b
  }

  /** How the watchdog's rollback goes if it fires while the handler waits for the lock, from attempt `k` on. */
  function FiresWaiting(h: Policy, w: World, k: nat): Option<RollbackFaults>
    requires k <= h.maxRetries < |w.attempts|
    decreases h.maxRetries - k
  {
    First(At(w.attempts[k].wait), if TriesAgain(h, w, k, true) then FiresWaiting(h, w, k + 1) else None)
  }

  /** Or before the commit, when the handler gets that far. */
  function FiresEarly(h: Policy, w: World): Option<RollbackFaults>
    requires h.maxRetries < |w.attempts|
  {
    First(FiresWaiting(h, w, 0), if GetsLock(h, w, true) && OurTurn(w) then At(w.inner.beforeCommit) else None)
  }

  /** The commit takes effect: it is reached, it is not lost, and no watchdog has taken the chips out before. */
  predicate Commits(h: Policy, w: World)
    requires h.maxRetries < |w.attempts|
  {
    && GetsLock(h, w, true) && OurTurn(w) && w.inner.commit != Lost
    && (FiresEarly(h, w) == None || FiresEarly(h, w).value.script == Lost)
  }

  predicate Succeeds(h: Policy, w: World)
    requires h.maxRetries < |w.attempts|
  {
    Commits(h, w) && w.inner.commit == Fine && w.inner.applies && w.inner.save == Saved
  }

  /** The handler ends with a rollback: always when it fails, except when the load under the lock raises. */
  predicate RollsBack(h: Policy, w: World)
    requires h.maxRetries < |w.attempts|
  {
    !Succeeds(h, w) && !(GetsLock(h, w, true) && w.inner.load.LoadRaises?)
  }

  /** Or before the handler's rollback, or during it, as long as that does not fail before its end. */
  function FiresAround(w: World): Option<RollbackFaults> {
    First(At(w.beforeRollback), if w.rollback.script == Fine then At(w.duringRollback) else None)
  }

  /** How the watchdog's rollback goes if it fires at any time before the handler's own is over. */
  function Fires(h: Policy, w: World): Option<RollbackFaults>
    requires h.maxRetries < |w.attempts|
  {
    First(FiresEarly(h, w), if RollsBack(h, w) then FiresAround(w) else None)
  }

  function PaidBy(f: Option<RollbackFaults>): nat {
    if f == None then 0 else Payments(f.value)
  }

  /** Repayments of a reservation that is not committed: every rollback whose script runs pays, the watchdog's, the
      handler's, and the watchdog's afterwards if it has neither fired nor been cancelled. */
  function Repaid(h: Policy, w: World): nat
    requires h.maxRetries < |w.attempts|
  {
    var fired, mine := Fires(h, w), RollsBack(h, w);
    PaidBy(fired) + (if mine then Payments(w.rollback) else 0)
    + (if fired == None && !(mine && w.rollback.script == Fine) then Payments(w.afterwards) else 0)
  }

  /** Repayments of a committed reservation that the handler rolls back: by the handler, and by the watchdog of a
      commit without a reply if it fires when the handler's script has run. */
  function RepaidAfterCommit(h: Policy, w: World): nat
    requires h.maxRetries < |w.attempts|
  {
    Payments(w.rollback)
    + (if w.inner.commit != Late || FiresEarly(h, w).Some? || w.beforeRollback.fires then 0
       else if w.rollback.script == Fine then PaidBy(At(w.duringRollback)) else Payments(w.afterwards))
  }

  /** When the action is whole. Without a commit: the rollbacks that run pay once between them. With a commit and a
      save that takes effect: the save says so, or the rollback it provokes is lost. With a commit and no save: the
      rollback is not lost, and with the watchdog's it pays once. */
  predicate WholeByInputs(h: Policy, w: World)
    requires h.maxRetries < |w.attempts|
  {
    if !Commits(h, w) then Repaid(h, w) == 1
    else if w.inner.commit == Fine && w.inner.applies && w.inner.save in {Saved, RaisedSaved} then
      w.inner.save == Saved || w.rollback.script == Lost
    else w.rollback.script != Lost && RepaidAfterCommit(h, w) == 1
  }

  // The proof follows the reservation.

  /** A reservation after its watchdog fired, if it did. */
  function After(required: nat, fired: Option<RollbackFaults>): Record {
    if fired == None then Fresh(0, required) else Fire(Fresh(0, required), fired.value)
  }

  lemma WaitIsFirst(s: State, required: nat, fired: Option<RollbackFaults>, p: Pause)
    requires s.reservation == Some(After(required, fired))
    ensures Wait(s, p) == s.(reservation := Some(After(required, First(fired, At(p)))))
  {
  }

  lemma {:induction false} QueueByInputs(s: State, required: nat, fired: Option<RollbackFaults>,
                                         h: Policy, w: World, k: nat)
    requires k <= h.maxRetries < |w.attempts| && s.reservation == Some(After(required, fired))
    ensures var q := Queue(s, h, w, k);
            && q.state == s.(reservation := Some(After(required, First(fired, FiresWaiting(h, w, k)))))
            && (q.Got? <==> w.attempts[LastTry(h, w, k, true)].lock.Acquired?)
    decreases h.maxRetries - k
  {
    WaitIsFirst(s, required, fired, w.attempts[k].wait);
    if TriesAgain(h, w, k, true) {
      QueueByInputs(Wait(s, w.attempts[k].wait), required, First(fired, At(w.attempts[k].wait)), h, w, k + 1);
    }
  }

  lemma AroundUncommitted(required: nat, fired: Option<RollbackFaults>, allow: bool, f: RollbackFaults,
                          during: Option<RollbackFaults>)
    ensures var r := RollbackAround(After(required, fired), allow, f, during).0;
            && r.status != Committed && r.watched == (fired == None && f.script != Fine)
            && r.payments == PaidBy(fired) + Payments(f)
                 + (if fired == None && f.script == Fine then PaidBy(during) else 0)
  {
  }

  /** Rolling back a reservation that is not committed. */
  lemma UndoUncommitted(s: State, required: nat, fired: Option<RollbackFaults>, w: World, allow: bool)
    requires s.reservation == Some(After(required, fired))
    ensures var s' := Undo(s, w, allow);
            var all := First(fired, FiresAround(w));
            && s'.reservation.Some? && s'.saves == s.saves
            && Settled(w, s').status != Committed
            && Settled(w, s').payments == PaidBy(all) + Payments(w.rollback)
                 + (if all == None && w.rollback.script != Fine then Payments(w.afterwards) else 0)
  {
    WaitIsFirst(s, required, fired, w.beforeRollback);
    AroundUncommitted(required, First(fired, At(w.beforeRollback)), allow, w.rollback, At(w.duringRollback));
  }

  lemma LeftAlone(s: State, required: nat, fired: Option<RollbackFaults>, w: World)
    requires s.reservation == Some(After(required, fired))
    ensures Settled(w, s).status != Committed
    ensures Settled(w, s).payments == PaidBy(fired) + (if fired == None then Payments(w.afterwards) else 0)
  {
  }

  /** Rolling back a committed one. */
  lemma UndoCommitted(s: State, w: World)
    requires s.reservation.Some? && s.reservation.value.status == Committed && s.reservation.value.payments == 0
    ensures var s' := Undo(s, w, true);
            && s'.reservation.Some? && s'.saves == s.saves
            && (Settled(w, s').status == Committed <==> w.rollback.script == Lost)
            && (w.rollback.script != Lost ==>
                  Settled(w, s').payments == Payments(w.rollback)
                    + (if !s.reservation.value.watched || w.beforeRollback.fires then 0
                       else if w.rollback.script == Fine then PaidBy(At(w.duringRollback))
                       else Payments(w.afterwards)))
  {
  }

  /** The commit: either its script finds the fresh reservation pending, or nothing comes of it. */
  lemma CommitByInputs(s: State, required: nat, fired: Option<RollbackFaults>, w: World)
    requires s.reservation == Some(After(required, fired))
    ensures var (s', ok) := CommitNow(s, w);
            var all := First(fired, At(w.inner.beforeCommit));
            var takes := w.inner.commit != Lost && (all == None || all.value.script == Lost);
            && s'.saves == s.saves
            && (ok <==> takes && w.inner.commit == Fine)
            && s'.reservation == Some(
                 if !takes then After(required, all)
                 else After(required, all).(status := Committed, watched := all == None && w.inner.commit == Late))
            && (takes ==> s'.reservation.value.payments == 0)
  {
    WaitIsFirst(s, required, fired, w.inner.beforeCommit);
  }

  /** The three ways to end after a commit that took effect. */
  lemma WholeAfterCommit(n: nat, s: State, h: Policy, w: World, ok: bool)
    requires h.maxRetries < |w.attempts|
    requires s.reservation.Some? && s.reservation.value.status == Committed && s.reservation.value.payments == 0
    requires s.saves == n && (ok <==> w.inner.commit == Fine) && w.inner.commit != Lost
    requires s.reservation.value.watched <==> FiresEarly(h, w) == None && w.inner.commit == Late
    ensures var s' := if ok then ApplyAndSave(s, w).0 else Undo(s, w, true);
            Whole(n, w, s') <==>
              if w.inner.commit == Fine && w.inner.applies && w.inner.save in {Saved, RaisedSaved} then
                w.inner.save == Saved || w.rollback.script == Lost
              else w.rollback.script != Lost && RepaidAfterCommit(h, w) == 1
  {
    UndoCommitted(s, w);
    var s1 := s.(saves := s.saves + (if w.inner.save in {Saved, RaisedSaved} then 1 else 0),
                 steps := s.steps + [SaveCall(w.inner.save == Saved)]);
    UndoCommitted(s1, w);
  }

  /** Under the lock. */
  lemma PhaseIsWholeExactlyWhen(n: nat, s: State, required: nat, h: Policy, w: World)
    requires h.maxRetries < |w.attempts| && GetsLock(h, w, true) && s.saves == n
    requires s.reservation == Some(After(required, FiresWaiting(h, w, 0)))
    ensures Whole(n, w, CommitPhase(s, w).0) <==> WholeByInputs(h, w)
  {
    var s0 := s.(steps := s.steps + [Entered]);
    var waiting := FiresWaiting(h, w, 0);
    if OurTurn(w) {
      var (s1, ok) := CommitNow(s0, w);
      CommitByInputs(s0, required, waiting, w);
      if Commits(h, w) {
        WholeAfterCommit(n, s1, h, w, ok);
      } else {
        UndoUncommitted(s1, required, FiresEarly(h, w), w, true);
      }
    } else {
      UndoUncommitted(s0, required, waiting, w, false);
      LeftAlone(s0, required, waiting, w);
    }
  }

  /** A bet that reserved chips is whole exactly under the given faults: whatever the locks, the load, the commit,
      the save, both kinds of rollback and the watchdog's timing are. */
  lemma ActionIsWholeExactlyWhen(n: nat, h: Policy, r: Request, w: World)
    requires h.maxRetries < |w.attempts| && !w.loadRaises && w.reserves
    requires Validate(w.table, r).Some? && Validate(w.table, r).value > 0
    ensures Whole(n, w, Handle(State(None, n, []), h, r, w).0) <==> WholeByInputs(h, w)
  {
    var required := Validate(w.table, r).value;
    var s0 := Start(n, required);
    QueueByInputs(s0, required, None, h, w, 0);
    var s1 := Queue(s0, h, w, 0).state;
    if GetsLock(h, w, true) {
      PhaseIsWholeExactlyWhen(n, s1, required, h, w);
    } else {
      UndoUncommitted(s1, required, FiresWaiting(h, w, 0), w, false);
    }
  }

  /** No rollback fails, neither the handler's nor the watchdog's. */
  ghost predicate FineWorld(w: World) {
    && w.rollback == FINE && w.beforeRollback.faults == FINE && w.inner.beforeCommit.faults == FINE
    && w.duringRollback.faults == FINE && w.afterwards == FINE
    && forall i :: 0 <= i < |w.attempts| ==> w.attempts[i].wait.faults == FINE
  }

  lemma {:induction false} FineWhileWaiting(h: Policy, w: World, k: nat)
    requires k <= h.maxRetries < |w.attempts| && FineWorld(w)
    ensures FiresWaiting(h, w, k).Some? ==> FiresWaiting(h, w, k).value == FINE
    decreases h.maxRetries - k
  {
    if TriesAgain(h, w, k, true) {
      FineWhileWaiting(h, w, k + 1);
    }
  }

  /** In the end the chips were repaid `times` times, always to the wallet. */
  ghost predicate RepaidTimes(w: World, s: State, times: nat) {
    s.reservation.Some? && Settled(w, s).payments == times && Settled(w, s).refunds == times
  }

  lemma UndoInFineWorld(s: State, required: nat, fired: Option<RollbackFaults>, w: World, allow: bool)
    requires FineWorld(w) && s.reservation == Some(After(required, fired)) && (fired.Some? ==> fired.value == FINE)
    ensures RepaidTimes(w, Undo(s, w, allow), if First(fired, FiresAround(w)).Some? then 2 else 1)
  {
    WaitIsFirst(s, required, fired, w.beforeRollback);
  }

  lemma UndoCommittedInFineWorld(s: State, w: World)
    requires FineWorld(w) && s.reservation.Some? && s.reservation.value.status == Committed
    requires s.reservation.value.payments == 0 && s.reservation.value.refunds == 0
    ensures RepaidTimes(w, Undo(s, w, true),
                        if s.reservation.value.watched && !w.beforeRollback.fires && w.duringRollback.fires then 2
                        else 1)
  {
  }

  lemma ApplyInFineWorld(s: State, w: World)
    requires FineWorld(w) && s.reservation.Some? && s.reservation.value.status == Committed
    requires s.reservation.value.payments == 0 && s.reservation.value.refunds == 0 && !s.reservation.value.watched
    ensures RepaidTimes(w, ApplyAndSave(s, w).0, if w.inner.applies && w.inner.save == Saved then 0 else 1)
  {
    UndoCommittedInFineWorld(s, w);
    UndoCommittedInFineWorld(s.(saves := s.saves + (if w.inner.save in {Saved, RaisedSaved} then 1 else 0),
                                steps := s.steps + [SaveCall(w.inner.save == Saved)]), w);
  }

  /** The watchdog and the handler both repay: the watchdog's script runs while the reservation is not committed and
      the handler rolls back too, or the watchdog's script finds that the handler has just taken the chips out. */
  predicate BothRepay(h: Policy, w: World)
    requires h.maxRetries < |w.attempts|
  {
    if !Commits(h, w) then RollsBack(h, w) && Fires(h, w).Some?
    else w.inner.commit == Late && !w.beforeRollback.fires && w.duringRollback.fires
  }

  lemma PhaseInFineWorld(s: State, required: nat, h: Policy, w: World)
    requires h.maxRetries < |w.attempts| && FineWorld(w) && GetsLock(h, w, true)
    requires s.reservation == Some(After(required, FiresWaiting(h, w, 0)))
    requires FiresWaiting(h, w, 0).Some? ==> FiresWaiting(h, w, 0).value == FINE
    ensures RepaidTimes(w, CommitPhase(s, w).0, if Succeeds(h, w) then 0 else if BothRepay(h, w) then 2 else 1)
  {
    var s0 := s.(steps := s.steps + [Entered]);
    if OurTurn(w) {
      var (s1, ok) := CommitNow(s0, w);
      CommitByInputs(s0, required, FiresWaiting(h, w, 0), w);
      if ok {
        ApplyInFineWorld(s1, w);
      } else if Commits(h, w) {
        UndoCommittedInFineWorld(s1, w);
      } else {
        UndoInFineWorld(s1, required, FiresEarly(h, w), w, true);
      }
    } else {
      UndoInFineWorld(s0, required, FiresWaiting(h, w, 0), w, false);
    }
  }

  lemma {:induction false} QueueWithoutReservation(s: State, h: Policy, w: World, k: nat)
    requires k <= h.maxRetries < |w.attempts| && s.reservation == None
    ensures Queue(s, h, w, k).state == s
    ensures Queue(s, h, w, k).Got? <==> w.attempts[LastTry(h, w, k, false)].lock.Acquired?
    decreases h.maxRetries - k
  {
    if TriesAgain(h, w, k, false) {
      QueueWithoutReservation(s, h, w, k + 1);
    }
  }

  lemma PhaseSucceedsExactlyWhen(s: State, required: nat, h: Policy, w: World)
    requires h.maxRetries < |w.attempts| && GetsLock(h, w, true)
    requires s.reservation == Some(After(required, FiresWaiting(h, w, 0)))
    ensures CommitPhase(s, w).1 <==> Succeeds(h, w)
  {
    var s0 := s.(steps := s.steps + [Entered]);
    if OurTurn(w) {
      CommitByInputs(s0, required, FiresWaiting(h, w, 0), w);
    }
  }

  /** Exactly when an action succeeds. It is valid; it gets the lock in time and finds the game and its turn; it is
      applied and saved; and if it needs chips, they are reserved and their commit takes effect and says so before a
      watchdog takes them back. */
  lemma SucceedsExactlyWhen(n: nat, h: Policy, r: Request, w: World)
    requires h.maxRetries < |w.attempts|
    ensures Handle(State(None, n, []), h, r, w).1 <==>
              && !w.loadRaises && Validate(w.table, r).Some?
              && if Validate(w.table, r).value > 0 then w.reserves && Succeeds(h, w)
                 else GetsLock(h, w, false) && OurTurn(w) && w.inner.applies && w.inner.save == Saved
  {
    if !w.loadRaises && Validate(w.table, r).Some? {
      var required := Validate(w.table, r).value;
      var s0 := Start(n, required);
      if required > 0 {
        QueueByInputs(s0, required, None, h, w, 0);
        if GetsLock(h, w, true) {
          PhaseSucceedsExactlyWhen(Queue(s0, h, w, 0).state, required, h, w);
        }
      } else {
        QueueWithoutReservation(s0, h, w, 0);
      }
    }
  }

  /** Every failed action with a reservation ends with rolling it back, except when the game cannot be loaded under the
      lock; and the rollback may undo a commit exactly when one was tried. */
  lemma RollsBackExactlyWhen(n: nat, h: Policy, r: Request, w: World)
    requires h.maxRetries < |w.attempts|
    requires !w.loadRaises && Validate(w.table, r).Some? && Validate(w.table, r).value > 0 && w.reserves
    ensures var steps := Handle(State(None, n, []), h, r, w).0.steps;
            (RolledBackAtLast(steps) <==> RollsBack(h, w)) && AllowsWhatWasTried(steps)
  {
    var required := Validate(w.table, r).value;
    var s0 := Start(n, required);
    SucceedsExactlyWhen(n, h, r, w);
    QueueByInputs(s0, required, None, h, w, 0);
    var s1 := Queue(s0, h, w, 0).state;
    if GetsLock(h, w, true) {
      PhaseRollsBackAtLast(s1, w);
    } else {
      UndoRollsBackAtLast(s1, w, false);
    }
  }

  /** When no rollback fails or is stopped, a reservation is repaid not at all after a success; twice when both repay;
      and once otherwise. */
  lemma RefundsInFineWorld(n: nat, h: Policy, r: Request, w: World)
    requires h.maxRetries < |w.attempts| && FineWorld(w) && !w.loadRaises && w.reserves
    requires Validate(w.table, r).Some? && Validate(w.table, r).value > 0
    ensures RepaidTimes(w, Handle(State(None, n, []), h, r, w).0,
                        if Succeeds(h, w) then 0 else if BothRepay(h, w) then 2 else 1)
  {
    var required := Validate(w.table, r).value;
    var s0 := Start(n, required);
    QueueByInputs(s0, required, None, h, w, 0);
    FineWhileWaiting(h, w, 0);
    var s1, waiting := Queue(s0, h, w, 0).state, FiresWaiting(h, w, 0);
    if GetsLock(h, w, true) {
      PhaseInFineWorld(s1, required, h, w);
    } else {
      UndoInFineWorld(s1, required, waiting, w, false);
    }
  }

  /** The late rollback is one the handler decides on: when a lock attempt outlives the reservation it gives
      up because the reservation has expired, and rolls back what the watchdog has rolled back before. */
  lemma ExpiredReservationIsRefundedTwice(n: nat, h: Policy, r: Request, w: World,
                                          depth: int, estimate: real, age: real)
    requires |w.attempts| > h.maxRetries && FineWorld(w) && !w.loadRaises && w.reserves
    requires Validate(w.table, r).Some? && Validate(w.table, r).value > 0
    requires w.attempts[0] == Attempt(Pause(true, FINE), TimedOut(depth, estimate, age))
    requires age >= h.ttl && estimate > 0.0
    ensures var (s', success) := Handle(State(None, n, []), h, r, w);
            !success && s'.reservation.Some? && s'.reservation.value.refunds == 2
  {
    var s0 := Start(n, Validate(w.table, r).value);
    assert Queue(s0, h, w, 0) == GaveUp(Wait(s0, w.attempts[0].wait));
  }
}
