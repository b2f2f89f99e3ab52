/** `process_bet` (pokerapp/game_engine.py), which repeats a bet, wallet call included, until the version
    check of the saved game succeeds. */
module BetRetries {
  import opened Basics
  import opened HandAccounting

  /** How the save of an attempt ends; it may raise before or after the game was stored. */
  datatype Save = Saved | Conflict | RaisesUnsaved | RaisesSaved

  /** What one attempt meets: the game it loads with the seat of the player, if there are such, how the wallet call
      goes, and how the save ends. */
  datatype Attempt = Attempt(loaded: Option<(Table, nat)>, call: Fault, save: Save)

  /** The wallet afterwards, the game that was stored with the bet in it, and the answer, if it ever came. */
  datatype Outcome = Outcome(balance: int, saved: Option<Table>, answer: Option<bool>)

  predicate Sane(attempts: seq<Attempt>) {
    forall a :: a in attempts && a.loaded.Some? ==>
      a.loaded.value.1 < |a.loaded.value.0.seats|
  }

  /** The player has a wallet in every game loaded; without one a bet costs nothing. */
  predicate WithWallet(attempts: seq<Attempt>)
    requires Sane(attempts)
  {
    forall a :: a in attempts && a.loaded.Some? ==> a.loaded.value.0.seats[a.loaded.value.1].hasWallet
  }

  /** The loaded game as the attempt sees it: the wallet is not part of what is stored. */
  function Seen(a: Attempt, balance: int): Table
    requires Sane([a]) && a.loaded.Some?
  {
    assert a in [a];
    var (t, i) := a.loaded.value;
    t.(seats := t.seats[i := t.seats[i].(balance := balance)])
  }

  /** `_process_once` up to the save; a bet changes the game exactly as a raise does. */
  function PlaceBet(a: Attempt, balance: int, amount: int): (Table, bool)
    requires Sane([a]) && a.loaded.Some?
  {
    assert a in [a];
    Execute(Seen(a, balance), a.loaded.value.1, Raise, amount, a.call)
  }

  /** The retry loop. */
  function Retry(attempts: seq<Attempt>, balance: int, amount: int): Outcome
    requires Sane(attempts)
  {
    if attempts == [] then Outcome(balance, None, None)
    else
      var a := attempts[0];
      assert a in attempts;
      if a.loaded == None then Outcome(balance, None, Some(false))
      else
        var (t, ok) := PlaceBet(a, balance, amount);
        var left := t.seats[a.loaded.value.1].balance;
        if !ok then Outcome(left, None, Some(false))
        else
          match a.save
          case Saved => Outcome(left, Some(t), Some(true))
          case Conflict => Retry(attempts[1..], left, amount)
          case RaisesUnsaved => Outcome(left, None, Some(false))
          case RaisesSaved => Outcome(left, Some(t), Some(false))
  }

  /** `process_bet` */
  function Bet(attempts: seq<Attempt>, balance: int, amount: int): Outcome
    requires Sane(attempts)
  {
    if amount <= 0 then Outcome(balance, None, Some(false)) else Retry(attempts, balance, amount)
  }

  class Wallet {
    var balance: int
  }

  method ProcessBet(wallet: Wallet, attempts: seq<Attempt>, amount: int)
    returns (saved: Option<Table>, answer: Option<bool>)
    requires Sane(attempts)
    modifies wallet
    ensures Outcome(wallet.balance, saved, answer) == Bet(attempts, old(wallet.balance), amount)
  {
    if amount <= 0 {
      return None, Some(false);
    }
    for k := 0 to |attempts|
      invariant Retry(attempts[k..], wallet.balance, amount) == Bet(attempts, old(wallet.balance), amount)
    {
      var a := attempts[k];
      assert attempts[k..][0] == a && attempts[k..][1..] == attempts[k + 1..];
      if a.loaded == None {
        return None, Some(false);
      }
      var (t, ok) := PlaceBet(a, wallet.balance, amount);
      wallet.balance := t.seats[a.loaded.value.1].balance;
      if !ok {
        return None, Some(false);
      }
      if a.save == Saved {
        return Some(t), Some(true);
      }
      if a.save == RaisesSaved {
        return Some(t), Some(false);
      }
      if a.save == RaisesUnsaved {
        return None, Some(false);
      }
    }
    return None, None;
  }

  // ---------------------------------------------------------------------------------------------
  // Where the chips go
  // ---------------------------------------------------------------------------------------------

  /** The save of the attempt takes effect. */
  predicate Stores(a: Attempt) {
    a.save == Saved || a.save == RaisesSaved
  }

  /** The pot of the game that the stored one was computed from. */
  function PotBefore(attempts: seq<Attempt>, balance: int, amount: int): int
    requires Sane(attempts) && Retry(attempts, balance, amount).saved.Some?
  {
    var a := attempts[0];
    assert a in attempts;
    if Stores(a) then a.loaded.value.0.pot
    else PotBefore(attempts[1..], PlaceBet(a, balance, amount).0.seats[a.loaded.value.1].balance, amount)
  }

  /** What the table gained. */
  function Gain(attempts: seq<Attempt>, balance: int, amount: int): int
    requires Sane(attempts)
  {
    var saved := Retry(attempts, balance, amount).saved;
    if saved == None then 0 else saved.value.pot - PotBefore(attempts, balance, amount)
  }

  /** The chips that the bet of this attempt takes. */
  function Price(a: Attempt, amount: int): int
    requires Sane([a]) && a.loaded.Some?
  {
    assert a in [a];
    Due(a.loaded.value.0, a.loaded.value.1, Raise, amount)
  }

  /** An attempt that debits the wallet without storing its game: the balance suffices, the debit is not lost, and
      the wallet call fails after it or the save does not take effect. */
  predicate TakesForNothing(a: Attempt, balance: int, amount: int)
    requires Sane([a])
  {
    a.loaded.Some? && Price(a, amount) <= balance && a.call != Lost && (a.call == Late || !Stores(a))
  }

  lemma BetIsPaid(a: Attempt, balance: int, amount: int)
    requires Sane([a]) && WithWallet([a]) && a.loaded.Some? && amount > 0
    ensures var (t, ok) := PlaceBet(a, balance, amount);
            var i := a.loaded.value.1;
            && i < |t.seats| && Price(a, amount) >= amount
            && balance - t.seats[i].balance ==
                 (if a.call != Lost && Price(a, amount) <= balance then Price(a, amount) else 0)
            && (ok <==> a.call == Fine && Price(a, amount) <= balance)
            && t.pot - a.loaded.value.0.pot == (if ok then Price(a, amount) else 0)
  {
    assert a in [a];
  }

  /** The wallet never pays less than the table gains. */
  lemma {:induction false} NothingIsFree(attempts: seq<Attempt>, balance: int, amount: int)
    requires Sane(attempts) && WithWallet(attempts) && amount > 0
    ensures balance - Retry(attempts, balance, amount).balance >= Gain(attempts, balance, amount) >= 0
  {
    if attempts != [] {
      var a := attempts[0];
      assert a in attempts;
      if a.loaded.Some? {
        BetIsPaid(a, balance, amount);
        if PlaceBet(a, balance, amount).1 && a.save == Conflict {
          NothingIsFree(attempts[1..], PlaceBet(a, balance, amount).0.seats[a.loaded.value.1].balance, amount);
        }
      }
    }
  }

  /** The wallet pays exactly what the table gains if and only if the first attempt does not run into a conflict or an
      error after its debit: every repetition debits the wallet again. */
  lemma PaidExactlyWhenFirstAttemptSettles(attempts: seq<Attempt>, balance: int, amount: int)
    requires Sane(attempts) && WithWallet(attempts) && amount > 0 && attempts != []
    ensures Sane([attempts[0]])
    ensures balance - Bet(attempts, balance, amount).balance == Gain(attempts, balance, amount) <==>
              !TakesForNothing(attempts[0], balance, amount)
  {
    var a := attempts[0];
    assert a in attempts;
    if a.loaded.Some? {
      BetIsPaid(a, balance, amount);
      if PlaceBet(a, balance, amount).1 && a.save == Conflict {
        NothingIsFree(attempts[1..], PlaceBet(a, balance, amount).0.seats[a.loaded.value.1].balance, amount);
      }
    }
  }

  /** The attempt has the bet placed and paid, but its save conflicts, so that there is another one. */
  predicate Repeats(a: Attempt, balance: int, amount: int)
    requires Sane([a])
  {
    a.loaded.Some? && PlaceBet(a, balance, amount).1 && a.save == Conflict
  }

  /** What the first `k` attempts have left in the wallet. */
  function LeftAfter(attempts: seq<Attempt>, balance: int, amount: int, k: nat): int
    requires Sane(attempts) && k <= |attempts|
  {
    if k == 0 then balance
    else
      var a := attempts[0];
      assert a in attempts && forall x :: x in attempts[1..] ==> x in attempts;
      if a.loaded == None then balance
      else LeftAfter(attempts[1..], PlaceBet(a, balance, amount).0.seats[a.loaded.value.1].balance, amount, k - 1)
  }

  /** The first `k` attempts all repeat. */
  ghost predicate AllRepeat(attempts: seq<Attempt>, balance: int, amount: int, k: nat)
    requires Sane(attempts) && k <= |attempts|
  {
    forall j :: 0 <= j < k ==> RepeatsAt(attempts, balance, amount, j)
  }

  ghost predicate RepeatsAt(attempts: seq<Attempt>, balance: int, amount: int, j: nat)
    requires Sane(attempts) && j < |attempts|
  {
    assert attempts[j] in attempts;
    Repeats(attempts[j], LeftAfter(attempts, balance, amount, j), amount)
  }

  /** Attempt `k` is the first that does not repeat: the one that gives the answer. */
  ghost predicate Decides(attempts: seq<Attempt>, balance: int, amount: int, k: nat)
    requires Sane(attempts)
  {
    k < |attempts| && AllRepeat(attempts, balance, amount, k) && !RepeatsAt(attempts, balance, amount, k)
  }

  lemma AfterTheFirst(attempts: seq<Attempt>, balance: int, amount: int, j: nat)
    requires Sane(attempts) && j < |attempts| - 1 && Sane(attempts[1..]) && Sane([attempts[0]])
    requires Repeats(attempts[0], balance, amount)
    ensures var left := PlaceBet(attempts[0], balance, amount).0.seats[attempts[0].loaded.value.1].balance;
            && LeftAfter(attempts, balance, amount, j + 1) == LeftAfter(attempts[1..], left, amount, j)
            && RepeatsAt(attempts, balance, amount, j + 1) == RepeatsAt(attempts[1..], left, amount, j)
  {
  }

  lemma FirstRepeats(attempts: seq<Attempt>, balance: int, amount: int)
    requires Sane(attempts) && attempts != []
    ensures Sane([attempts[0]])
    ensures RepeatsAt(attempts, balance, amount, 0) <==> Repeats(attempts[0], balance, amount)
  {
    assert attempts[0] in attempts;
  }

  /** The attempt that decides gives the answer: yes exactly when it has its game, places the bet and saves it. */
  lemma {:induction false} AnswerOfTheFirstThatDecides(attempts: seq<Attempt>, balance: int, amount: int, k: nat)
    requires Sane(attempts) && Decides(attempts, balance, amount, k)
    ensures attempts[k] in attempts
    ensures var a, left := attempts[k], LeftAfter(attempts, balance, amount, k);
            Retry(attempts, balance, amount).answer ==
              Some(a.loaded.Some? && PlaceBet(a, left, amount).1 && a.save == Saved)
  {
    FirstRepeats(attempts, balance, amount);
    if k > 0 {
      assert RepeatsAt(attempts, balance, amount, 0);
      var left := PlaceBet(attempts[0], balance, amount).0.seats[attempts[0].loaded.value.1].balance;
      forall j | 0 <= j < k ensures j < k - 1 ==> RepeatsAt(attempts[1..], left, amount, j) {
        if j < k - 1 {
          AfterTheFirst(attempts, balance, amount, j);
          assert RepeatsAt(attempts, balance, amount, j + 1);
        }
      }
      AfterTheFirst(attempts, balance, amount, k - 1);
      AnswerOfTheFirstThatDecides(attempts[1..], left, amount, k - 1);
    }
  }

  /** There is no answer exactly when no attempt decides. */
  lemma {:induction false} NoAnswerExactlyWhenAllRepeat(attempts: seq<Attempt>, balance: int, amount: int)
    requires Sane(attempts)
    ensures Retry(attempts, balance, amount).answer == None <==> AllRepeat(attempts, balance, amount, |attempts|)
  {
    if attempts != [] {
      FirstRepeats(attempts, balance, amount);
      if Repeats(attempts[0], balance, amount) {
        var left := PlaceBet(attempts[0], balance, amount).0.seats[attempts[0].loaded.value.1].balance;
        NoAnswerExactlyWhenAllRepeat(attempts[1..], left, amount);
        forall j | 0 <= j < |attempts| - 1
          ensures RepeatsAt(attempts, balance, amount, j + 1) == RepeatsAt(attempts[1..], left, amount, j)
        {
          AfterTheFirst(attempts, balance, amount, j);
        }
        if AllRepeat(attempts[1..], left, amount, |attempts| - 1) {
          forall j | 0 <= j < |attempts| ensures RepeatsAt(attempts, balance, amount, j) {
            if j > 0 {
              assert RepeatsAt(attempts[1..], left, amount, j - 1);
            }
          }
        }
        if AllRepeat(attempts, balance, amount, |attempts|) {
          forall j | 0 <= j < |attempts| - 1 ensures RepeatsAt(attempts[1..], left, amount, j) {
            assert RepeatsAt(attempts, balance, amount, j + 1);
          }
        }
      }
    }
  }

  lemma {:induction false} SomeAttemptDecides(attempts: seq<Attempt>, balance: int, amount: int, n: nat)
    returns (k: nat)
    requires Sane(attempts) && n <= |attempts| && !AllRepeat(attempts, balance, amount, n)
    ensures Decides(attempts, balance, amount, k)
  {
    if n > 0 && AllRepeat(attempts, balance, amount, n - 1) {
      k := n - 1;
    } else {
      k := SomeAttemptDecides(attempts, balance, amount, n - 1);
    }
  }

  /** The attempt has its game, places the bet and saves it. */
  ghost predicate Places(attempts: seq<Attempt>, balance: int, amount: int, k: nat)
    requires Sane(attempts) && k < |attempts|
  {
    var a := attempts[k];
    assert a in attempts;
    a.loaded.Some? && PlaceBet(a, LeftAfter(attempts, balance, amount, k), amount).1 && a.save == Saved
  }

  /** `process_bet` says yes exactly when the amount is positive and some attempt places the bet and saves it, after
      others that ended in a conflict only. */
  lemma BetSucceedsExactlyWhen(attempts: seq<Attempt>, balance: int, amount: int)
    requires Sane(attempts)
    ensures Bet(attempts, balance, amount).answer == Some(true) <==>
              amount > 0
              && exists k: nat :: Decides(attempts, balance, amount, k) && Places(attempts, balance, amount, k)
    ensures amount <= 0 ==> Bet(attempts, balance, amount).balance == balance
  {
    NoAnswerExactlyWhenAllRepeat(attempts, balance, amount);
    if !AllRepeat(attempts, balance, amount, |attempts|) {
      var k := SomeAttemptDecides(attempts, balance, amount, |attempts|);
      AnswerOfTheFirstThatDecides(attempts, balance, amount, k);
      assert Decides(attempts, balance, amount, k);
    }
    forall k: nat | Decides(attempts, balance, amount, k) && Places(attempts, balance, amount, k)
      ensures Retry(attempts, balance, amount).answer == Some(true)
    {
      AnswerOfTheFirstThatDecides(attempts, balance, amount, k);
    }
  }
}
