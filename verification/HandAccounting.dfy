/** The chips of one hand, from the first bet to the last payout (pokerapp/game_engine.py,
    `_execute_player_action` and `_distribute_payouts`; pokerapp/entities.py, `reset_bets`;
    pokerapp/pokerbotmodel.py, blinds and wallet; pokerapp/matchmaking_service.py, `collect_bets_for_pot`). */
module HandAccounting {
  import opened Basics
  import opened SidePots

  datatype PlayerState = Active | Folded | AllIn

  /** A seated player; `balance` is what the player's wallet holds, `hasWallet` whether one is attached. */
  datatype Seat = Seat(user: UserId, state: PlayerState, roundRate: int, totalBet: int,
                       hasActed: bool, hasWallet: bool, balance: int)

  datatype Table = Table(pot: int, maxRoundRate: int, tradingEnd: Option<UserId>, seats: seq<Seat>)

  datatype Action = Fold | Check | Call | Raise | Unknown

  // ---------------------------------------------------------------------------------------------
  // Specification of the operations
  // ---------------------------------------------------------------------------------------------

  function CallAmount(t: Table, i: nat): int
    requires i < |t.seats|
  {
    Max0(t.maxRoundRate - t.seats[i].roundRate)
  }

  /** The wallet's `authorize`: a debit, then a note of the reserved money. It fails without effect when the balance
      is too small or the debit is lost, and it fails late, with the balance debited, when only the rest raises. A
      player without a wallet is never refused. */
  function Charged(s: Seat, amount: int, call: Fault): (Seat, bool) {
    if !s.hasWallet then (s, true)
    else if call == Lost || amount < 0 || (amount > 0 && amount > s.balance) then (s, false)
    else (s.(balance := s.balance - amount), call == Fine)
  }

  /** `s` after `amount` has gone into the pot. */
  function Bets(s: Seat, amount: int): Seat {
    s.(roundRate := s.roundRate + amount, totalBet := s.totalBet + amount)
  }

  /** After a raise every other active player has to act again. */
  function Reopened(seats: seq<Seat>, raiser: nat): (r: seq<Seat>)
    ensures |r| == |seats|
  {
    seq(|seats|, j requires 0 <= j < |seats| =>
      if j != raiser && seats[j].state == Active then seats[j].(hasActed := false) else seats[j])
  }

  /** `_execute_player_action`; `call` is how the wallet call goes, if there is one. */
  function Execute(t: Table, i: nat, action: Action, amount: int, call: Fault): (Table, bool)
    requires i < |t.seats|
  {
    var s := t.seats[i];
    match action
    case Fold => (t.(seats := t.seats[i := s.(state := Folded, hasActed := true)]), true)
    case Check => (t.(seats := t.seats[i := s.(hasActed := true)]), true)
    case Call =>
      var due := CallAmount(t, i);
      if due == 0 then (t.(seats := t.seats[i := s.(hasActed := true)]), true)
      else
        var (charged, ok) := Charged(s, due, call);
        if !ok then (t.(seats := t.seats[i := charged]), false)
        else (t.(pot := t.pot + due, seats := t.seats[i := Bets(charged, due).(hasActed := true)]), true)
    case Raise =>
      if amount <= 0 then (t, false)
      else
        var total := CallAmount(t, i) + amount;
        var (charged, ok) := Charged(s, total, call);
        if !ok then (t.(seats := t.seats[i := charged]), false)
        else
          var rate := s.roundRate + total;
          var seats := t.seats[i := Bets(charged, total).(hasActed := true)];
          (Table(t.pot + total, if rate > t.maxRoundRate then rate else t.maxRoundRate, Some(s.user),
                 Reopened(seats, i)), true)
    case Unknown => (t, false)
  }

  /** How the wallet calls of one blind go: the debit of the blind and, if that finds too little, the debit of what is
      there. */
  datatype BlindCalls = BlindCalls(whole: Fault, rest: Fault)

  /** `_set_player_blind`: a player who cannot pay the blind is all in with what is left. Any other failure of the
      wallet is not caught, and nothing is bet. */
  function PostBlind(t: Table, i: nat, blind: int, calls: BlindCalls): (Table, bool)
    requires i < |t.seats|
  {
    var s := t.seats[i];
    if blind <= s.balance || calls.whole != Fine then
      var (charged, ok) := Charged(s, blind, calls.whole);
      if !ok then (t.(seats := t.seats[i := charged]), false)
      else (t.(pot := t.pot + blind, seats := t.seats[i := Bets(charged, blind)]), true)
    else
      var (charged, ok) := Charged(s, s.balance, calls.rest);
      if !ok then (t.(seats := t.seats[i := charged]), false)
      else (t.(pot := t.pot + s.balance, seats := t.seats[i := Bets(charged, s.balance).(state := AllIn)]), true)
  }

  /** The betting part of `set_blinds`. */
  function Blinds(t: Table, small: nat, big: nat, smallBlind: int, calls: (BlindCalls, BlindCalls)): (Table, bool)
    requires small < |t.seats| && big < |t.seats|
  {
    var (t1, ok1) := PostBlind(t, small, smallBlind, calls.0);
    if !ok1 then (t1, false)
    else
      var (t2, ok2) := PostBlind(t1, big, smallBlind * 2, calls.1);
      if !ok2 then (t2, false)
      else (t2.(maxRoundRate := smallBlind * 2, tradingEnd := Some(t.seats[big].user)), true)
  }

  /** `collect_bets_for_pot`, and the end of the street in `progress_stage`. */
  function NewStreet(t: Table): Table {
    t.(maxRoundRate := 0,
       seats := seq(|t.seats|, j requires 0 <= j < |t.seats| => t.seats[j].(roundRate := 0, hasActed := false)))
  }

  /** `reset_bets` */
  function ResetBets(t: Table): Table {
    t.(pot := 0, maxRoundRate := 0,
       seats := seq(|t.seats|, j requires 0 <= j < |t.seats| =>
         t.seats[j].(totalBet := 0, roundRate := 0, hasActed := false, state := Active)))
  }

  predicate IsPaid(payouts: map<UserId, int>, s: Seat) {
    Get(payouts, s.user) > 0
  }

  function Paid(payouts: map<UserId, int>, s: Seat): Seat {
    s.(balance := s.balance + Get(payouts, s.user))
  }

  /** The payouts in the order of the seats, `calls[j]` being how the wallet call for the j-th one goes. The first call
      that fails, before or after its credit, ends them. */
  function Credited(seats: seq<Seat>, payouts: map<UserId, int>, calls: seq<Fault>): (r: (seq<Seat>, bool))
    requires |calls| == |seats|
    ensures |r.0| == |seats|
  {
    if seats == [] then ([], true)
    else if IsPaid(payouts, seats[0]) && (!seats[0].hasWallet || calls[0] == Lost) then (seats, false)
    else if IsPaid(payouts, seats[0]) && calls[0] == Late then ([Paid(payouts, seats[0])] + seats[1..], false)
    else
      var (rest, ok) := Credited(seats[1..], payouts, calls[1..]);
      ([if IsPaid(payouts, seats[0]) then Paid(payouts, seats[0]) else seats[0]] + rest, ok)
  }

  /** The payouts from the j-th seat on, where those before it are done. */
  function Continue(now: seq<Seat>, payouts: map<UserId, int>, calls: seq<Fault>, j: nat): (seq<Seat>, bool)
    requires j <= |now| == |calls|
  {
    var (rest, ok) := Credited(now[j..], payouts, calls[j..]);
    (now[..j] + rest, ok)
  }

  lemma ContinueStep(now: seq<Seat>, payouts: map<UserId, int>, calls: seq<Fault>, j: nat)
    requires j < |now| == |calls|
    ensures Continue(now, payouts, calls, j) ==
              if !IsPaid(payouts, now[j]) then Continue(now, payouts, calls, j + 1)
              else if !now[j].hasWallet || calls[j] == Lost then (now, false)
              else if calls[j] == Late then (now[j := Paid(payouts, now[j])], false)
              else Continue(now[j := Paid(payouts, now[j])], payouts, calls, j + 1)
  {
    var paid := now[j := Paid(payouts, now[j])];
    assert now[j..][1..] == now[j + 1..] == paid[j + 1..] && calls[j..][1..] == calls[j + 1..];
    assert now[..j] + now[j..] == now;
    assert now[..j] + ([paid[j]] + now[j + 1..]) == paid;
    var rest := Credited(now[j + 1..], payouts, calls[j + 1..]).0;
    assert now[..j] + ([now[j]] + rest) == now[..j + 1] + rest;
    assert now[..j] + ([paid[j]] + rest) == paid[..j + 1] + rest;
  }

  /** Seat `j` has been paid, or is not to be, or its payout has failed. */
  lemma PaidOne(before: seq<Seat>, now: seq<Seat>, ok: bool, payouts: map<UserId, int>, calls: seq<Fault>, j: nat)
    requires j < |before| == |now| == |calls|
    requires now == if IsPaid(payouts, before[j]) && before[j].hasWallet && calls[j] != Lost
                    then before[j := Paid(payouts, before[j])] else before
    requires ok == (!IsPaid(payouts, before[j]) || (before[j].hasWallet && calls[j] == Fine))
    ensures Continue(before, payouts, calls, j) == if ok then Continue(now, payouts, calls, j + 1) else (now, false)
  {
    ContinueStep(before, payouts, calls, j);
  }

  lemma ContinueEnds(now: seq<Seat>, payouts: map<UserId, int>, calls: seq<Fault>)
    requires |now| == |calls|
    ensures Continue(now, payouts, calls, 0) == Credited(now, payouts, calls)
    ensures Continue(now, payouts, calls, |now|) == (now, true)
  {
    assert now[..0] == [] && now[0..] == now && calls[0..] == calls;
    assert now[..|now|] == now && now[|now|..] == [] && now + [] == now;
    assert [] + Credited(now, payouts, calls).0 == Credited(now, payouts, calls).0;
  }

  /** `_distribute_payouts` */
  function Distribute(t: Table, payouts: map<UserId, int>, calls: seq<Fault>): (Table, bool)
    requires |calls| == |t.seats|
  {
    var (seats, ok) := Credited(t.seats, payouts, calls);
    (t.(seats := seats), ok)
  }

  // ---------------------------------------------------------------------------------------------
  // The objects
  // ---------------------------------------------------------------------------------------------

  /** `Player`, with the balance its wallet keeps. */
  class Player {
    const userId: UserId
    var state: PlayerState
    var roundRate: int
    var totalBet: int
    var hasActed: bool
    var hasWallet: bool
    var balance: int

    constructor (userId: UserId, balance: int)
      ensures View() == Seat(userId, Active, 0, 0, false, true, balance)
    {
      this.userId := userId;
      state, roundRate, totalBet, hasActed, hasWallet := Active, 0, 0, false, true;
      this.balance := balance;
    }

    function View(): Seat
      reads this
    {
      Seat(userId, state, roundRate, totalBet, hasActed, hasWallet, balance)
    }

    /** `wallet.authorize` */
    method Authorize(amount: int, call: Fault) returns (ok: bool)
      requires hasWallet
      modifies this`balance
      ensures View() == Charged(old(View()), amount, call).0 && ok == Charged(old(View()), amount, call).1
    {
      if call == Lost || amount < 0 || (amount > 0 && balance < amount) {
        return false;
      }
      balance := balance - amount;
      return call == Fine;
    }
  }

  class Game {
    var pot: int
    var maxRoundRate: int
    var tradingEnd: Option<UserId>
    var players: seq<Player>

    constructor (players: seq<Player>)
      ensures this.players == players && pot == 0 && maxRoundRate == 0
    {
      this.players := players;
      pot, maxRoundRate, tradingEnd := 0, 0, None;
    }

    ghost predicate Valid()
      reads this
    {
      forall i, j :: 0 <= i < j < |players| ==> players[i] != players[j]
    }

    function Seats(): (r: seq<Seat>)
      reads this, players
      ensures |r| == |players|
    {
      seq(|players|, i requires 0 <= i < |players| reads this, players => players[i].View())
    }

    function View(): Table
      reads this, players
    {
      Table(pot, maxRoundRate, tradingEnd, Seats())
    }

    method ExecutePlayerAction(seat: nat, action: Action, amount: int, call: Fault) returns (ok: bool)
      requires Valid() && seat < |players|
      modifies this`pot, this`maxRoundRate, this`tradingEnd, players
      ensures Valid()
      ensures (View(), ok) == Execute(old(View()), seat, action, amount, call)
    {
      var player := players[seat];
      match action {
        case Fold =>
          player.state := Folded;
          player.hasActed := true;
          assert Seats() == old(Seats())[seat := player.View()];
          return true;
        case Check =>
          player.hasActed := true;
          assert Seats() == old(Seats())[seat := player.View()];
          return true;
        case Call =>
          var callAmount := Max0(maxRoundRate - player.roundRate);
          if callAmount > 0 {
            ok := PutIn(seat, callAmount, call);
          } else {
            player.hasActed := true;
            assert Seats() == old(Seats())[seat := player.View()];
            ok := true;
          }
        case Raise =>
          ok := RaiseBy(seat, amount, call);
        case Unknown =>
          return false;
      }
    }

    /** The steps that call and raise share: authorise, then move the chips. */
    method PutIn(seat: nat, amount: int, call: Fault) returns (ok: bool)
      requires Valid() && seat < |players|
      modifies this`pot, players
      ensures ok == Charged(old(Seats())[seat], amount, call).1
      ensures pot == if ok then old(pot) + amount else old(pot)
      ensures var charged := Charged(old(Seats())[seat], amount, call).0;
              Seats() == old(Seats())[seat := if ok then Bets(charged, amount).(hasActed := true) else charged]
    {
      var player := players[seat];
      assert player.View() == Seats()[seat];
      if player.hasWallet {
        var authorized := player.Authorize(amount, call);
        if !authorized {
          assert Seats() == old(Seats())[seat := player.View()];
          return false;
        }
      }
      player.roundRate := player.roundRate + amount;
      player.totalBet := player.totalBet + amount;
      pot := pot + amount;
      player.hasActed := true;
      assert Seats() == old(Seats())[seat := player.View()];
      return true;
    }

    method RaiseBy(seat: nat, amount: int, call: Fault) returns (ok: bool)
      requires Valid() && seat < |players|
      modifies this`pot, this`maxRoundRate, this`tradingEnd, players
      ensures Valid()
      ensures (View(), ok) == Execute(old(View()), seat, Raise, amount, call)
    {
      if amount <= 0 {
        return false;
      }
      var player := players[seat];
      assert player.View() == Seats()[seat];
      var callAmount := Max0(maxRoundRate - player.roundRate);
      ok := PutIn(seat, callAmount + amount, call);
      if ok {
        assert player.View() == Seats()[seat];
        ghost var paid := Seats();
        maxRoundRate := if player.roundRate > maxRoundRate then player.roundRate else maxRoundRate;
        tradingEnd := Some(player.userId);
        assert Seats() == paid;
        ReopenBetting(seat);
      }
    }

    method ReopenBetting(raiser: nat)
      requires Valid() && raiser < |players|
      modifies players
      ensures Seats() == Reopened(old(Seats()), raiser)
    {
      for j := 0 to |players|
        invariant players == old(players) && Valid()
        invariant forall k :: 0 <= k < j ==> players[k].View() == Reopened(old(Seats()), raiser)[k]
        invariant forall k :: j <= k < |players| ==> players[k].View() == old(Seats())[k]
      {
        if j != raiser && players[j].state == Active {
          players[j].hasActed := false;
        }
      }
    }

    /** `_set_player_blind`; not `ok` stands for the exception that ends the start of the hand. */
    method SetPlayerBlind(seat: nat, amount: nat, calls: BlindCalls) returns (ok: bool)
      requires Valid() && seat < |players| && players[seat].hasWallet && players[seat].balance >= 0
      modifies this`pot, players
      ensures Valid() && View() == PostBlind(old(View()), seat, amount, calls).0
      ensures ok == PostBlind(old(View()), seat, amount, calls).1
    {
      var player := players[seat];
      assert player.View() == Seats()[seat];
      var tooLittle := calls.whole == Fine && player.balance < amount;
      ok := player.Authorize(amount, calls.whole);
      var paid := amount;
      if tooLittle {
        paid := player.balance;
        ok := player.Authorize(paid, calls.rest);
      }
      if ok {
        player.roundRate := player.roundRate + paid;
        player.totalBet := player.totalBet + paid;
        pot := pot + paid;
        if tooLittle {
          player.state := AllIn;
        }
      }
      assert Seats() == old(Seats())[seat := player.View()];
    }

    method SetBlinds(small: nat, big: nat, smallBlind: nat, calls: (BlindCalls, BlindCalls)) returns (ok: bool)
      requires Valid() && small < |players| && big < |players|
      requires forall p :: p in players ==> p.hasWallet && p.balance >= 0
      modifies this`pot, this`maxRoundRate, this`tradingEnd, players
      ensures Valid() && View() == Blinds(old(View()), small, big, smallBlind, calls).0
      ensures ok == Blinds(old(View()), small, big, smallBlind, calls).1
    {
      ok := SetPlayerBlind(small, smallBlind, calls.0);
      if !ok {
        return;
      }
      assert players[big].View() == Seats()[big];
      ok := SetPlayerBlind(big, smallBlind * 2, calls.1);
      if !ok {
        return;
      }
      ghost var posted := Seats();
      maxRoundRate := smallBlind * 2;
      tradingEnd := Some(players[big].userId);
      assert Seats() == posted;
    }

    /** `collect_bets_for_pot` and the `has_acted` loop of `progress_stage`. */
    method StartStreet()
      requires Valid()
      modifies this`maxRoundRate, players
      ensures Valid() && View() == NewStreet(old(View()))
    {
      for j := 0 to |players|
        invariant players == old(players) && Valid()
        invariant pot == old(pot) && tradingEnd == old(tradingEnd)
        invariant forall k :: 0 <= k < j ==> players[k].View() == NewStreet(old(View())).seats[k]
        invariant forall k :: j <= k < |players| ==> players[k].View() == old(Seats())[k]
      {
        players[j].roundRate := 0;
        players[j].hasActed := false;
      }
      maxRoundRate := 0;
      assert Seats() == NewStreet(old(View())).seats;
    }

    /** The payout of one seat. */
    method PayOut(seat: nat, payouts: map<UserId, int>, call: Fault) returns (ok: bool)
      requires Valid() && seat < |players|
      modifies players[seat]
      ensures var s := old(Seats())[seat];
              && ok == (!IsPaid(payouts, s) || (s.hasWallet && call == Fine))
              && Seats() == if IsPaid(payouts, s) && s.hasWallet && call != Lost
                            then old(Seats())[seat := Paid(payouts, s)] else old(Seats())
    {
      var player := players[seat];
      assert player.View() == Seats()[seat];
      var amount := if player.userId in payouts then payouts[player.userId] else 0;
      if amount > 0 {
        if !player.hasWallet || call == Lost {
          return false;
        }
        player.balance := player.balance + amount;
        assert Seats() == old(Seats())[seat := Paid(payouts, old(Seats())[seat])];
        if call == Late {
          return false;
        }
      }
      return true;
    }

    /** The loop over the seats. */
    method PayInOrder(payouts: map<UserId, int>, calls: seq<Fault>) returns (ok: bool)
      requires Valid() && |calls| == |players|
      modifies players
      ensures (Seats(), ok) == Credited(old(Seats()), payouts, calls)
    {
      ghost var due := Credited(Seats(), payouts, calls);
      ok := true;
      ContinueEnds(Seats(), payouts, calls);
      for j := 0 to |players|
        invariant ok && Continue(Seats(), payouts, calls, j) == due
      {
        ghost var before := Seats();
        ok := PayOut(j, payouts, calls[j]);
        PaidOne(before, Seats(), ok, payouts, calls, j);
        if !ok {
          return;
        }
      }
      ContinueEnds(Seats(), payouts, calls);
    }

    /** `_distribute_payouts`: `payouts` misses the users who get nothing. Not `ok` stands for the exception of a wallet
        call, which nobody catches. */
    method DistributePayouts(payouts: map<UserId, int>, calls: seq<Fault>) returns (ok: bool)
      requires Valid() && |calls| == |players|
      modifies players
      ensures Valid() && (View(), ok) == Distribute(old(View()), payouts, calls)
    {
      ok := PayInOrder(payouts, calls);
      assert View() == old(View()).(seats := Seats());
    }

    /** `reset_bets` */
    method Reset()
      requires Valid()
      modifies this`pot, this`maxRoundRate, players
      ensures Valid() && View() == ResetBets(old(View()))
    {
      pot := 0;
      maxRoundRate := 0;
      for j := 0 to |players|
        invariant players == old(players) && Valid()
        invariant pot == 0 && maxRoundRate == 0 && tradingEnd == old(tradingEnd)
        invariant forall k :: 0 <= k < j ==> players[k].View() == ResetBets(old(View())).seats[k]
        invariant forall k :: j <= k < |players| ==> players[k].View() == old(Seats())[k]
      {
        players[j].totalBet := 0;
        players[j].roundRate := 0;
        players[j].hasActed := false;
        players[j].state := Active;
      }
      assert Seats() == ResetBets(old(View())).seats;
    }
  }

  // ---------------------------------------------------------------------------------------------
  // Conservation
  // ---------------------------------------------------------------------------------------------

  function SumBalances(seats: seq<Seat>): int {
    if seats == [] then 0 else seats[0].balance + SumBalances(seats[1..])
  }

  function SumBets(seats: seq<Seat>): int {
    if seats == [] then 0 else seats[0].totalBet + SumBets(seats[1..])
  }

  lemma SumsAfterUpdate(seats: seq<Seat>, i: nat, s: Seat)
    requires i < |seats|
    ensures SumBalances(seats[i := s]) == SumBalances(seats) - seats[i].balance + s.balance
    ensures SumBets(seats[i := s]) == SumBets(seats) - seats[i].totalBet + s.totalBet
  {
    if i > 0 {
      SumsAfterUpdate(seats[1..], i - 1, s);
      assert seats[i := s][1..] == seats[1..][i - 1 := s];
    }
  }

  lemma SumsAgree(a: seq<Seat>, b: seq<Seat>)
    requires |a| == |b|
    requires forall j :: 0 <= j < |a| ==> a[j].balance == b[j].balance && a[j].totalBet == b[j].totalBet
    ensures SumBalances(a) == SumBalances(b) && SumBets(a) == SumBets(b)
  {
    if a != [] {
      SumsAgree(a[1..], b[1..]);
    }
  }

  lemma ZeroBets(a: seq<Seat>, b: seq<Seat>)
    requires |a| == |b|
    requires forall j :: 0 <= j < |a| ==> a[j].balance == b[j].balance && a[j].totalBet == 0
    ensures SumBalances(a) == SumBalances(b) && SumBets(a) == 0
  {
    if a != [] {
      ZeroBets(a[1..], b[1..]);
    }
  }

  /** The wallets of all players and the pot together. */
  function Chips(t: Table): int {
    SumBalances(t.seats) + t.pot
  }

  /** What an action asks the wallet for. */
  function Due(t: Table, i: nat, action: Action, amount: int): int
    requires i < |t.seats|
  {
    if action == Call then CallAmount(t, i)
    else if action == Raise && amount > 0 then CallAmount(t, i) + amount
    else 0
  }

  /** What an action takes from the wallet for nothing: its wallet call debits and then fails. */
  function LateDebit(t: Table, i: nat, action: Action, amount: int, call: Fault): nat
    requires i < |t.seats|
  {
    var due := Due(t, i, action, amount);
    if call == Late && t.seats[i].hasWallet && 0 < due <= t.seats[i].balance then due else 0
  }

  /** What an action does to the chips: they leave the table exactly when a wallet call fails late, what a player
      without a wallet puts in appears from nowhere, and the pot and the bets always move together. */
  lemma ActionAccounting(t: Table, i: nat, action: Action, amount: int, call: Fault)
    requires i < |t.seats|
    ensures var (t', ok) := Execute(t, i, action, amount, call);
            && |t'.seats| == |t.seats|
            && t'.pot - t.pot == SumBets(t'.seats) - SumBets(t.seats) >= 0
            && (!ok ==> t' == t.(seats := t.seats[i := t'.seats[i]])
                        && t'.seats[i] == t.seats[i].(balance := t.seats[i].balance
                                                                 - LateDebit(t, i, action, amount, call)))
            && (t.seats[i].hasWallet ==> Chips(t') == Chips(t) - LateDebit(t, i, action, amount, call))
            && (Chips(t') == Chips(t) <==>
                  LateDebit(t, i, action, amount, call) == 0 && (t.seats[i].hasWallet || t'.pot == t.pot))
  {
    var (t', ok) := Execute(t, i, action, amount, call);
    if ok && action == Raise {
      var due := Due(t, i, action, amount);
      var s' := Bets(Charged(t.seats[i], due, call).0, due).(hasActed := true);
      SumsAfterUpdate(t.seats, i, s');
      SumsAgree(t'.seats, t.seats[i := s']);
    } else {
      SumsAfterUpdate(t.seats, i, t'.seats[i]);
      assert t.seats[i := t.seats[i]] == t.seats;
    }
  }

  /** What an accepted action means for the street: a call matches the table's bet and a raise tops it by its
      amount, whereupon every other active player has to act again; a fold only folds. */
  lemma ActionMeansWhatItSays(t: Table, i: nat, action: Action, amount: int, call: Fault)
    requires i < |t.seats| && t.seats[i].roundRate <= t.maxRoundRate
    ensures var (t', ok) := Execute(t, i, action, amount, call);
            ok ==>
              && t'.seats[i].hasActed
              && (action == Call ==> t'.seats[i].roundRate == t'.maxRoundRate == t.maxRoundRate)
              && (action == Raise ==>
                    t'.seats[i].roundRate == t'.maxRoundRate == t.maxRoundRate + amount > t.maxRoundRate)
              && (action in {Fold, Check} ==> t'.pot == t.pot && t'.maxRoundRate == t.maxRoundRate)
              && (t'.seats[i].state == if action == Fold then Folded else t.seats[i].state)
              && forall j :: 0 <= j < |t.seats| && j != i ==>
                   t'.seats[j] == if action == Raise && t.seats[j].state == Active
                                  then t.seats[j].(hasActed := false) else t.seats[j]
  {
    var (t', ok) := Execute(t, i, action, amount, call);
    if ok && action == Raise {
      assert t'.seats == Reopened(t.seats[i := t'.seats[i]], i);
    }
  }

  /** When an action is accepted: folding and checking always, a call if there is nothing to call or the wallet pays
      it, a raise by a positive amount that the wallet pays together with the call. */
  lemma ActionAcceptedExactlyWhen(t: Table, i: nat, action: Action, amount: int, call: Fault)
    requires i < |t.seats|
    ensures var s := t.seats[i];
            var toCall := Max0(t.maxRoundRate - s.roundRate);
            Execute(t, i, action, amount, call).1 <==>
              || action in {Fold, Check}
              || (action == Call && (toCall == 0 || !s.hasWallet || (call == Fine && toCall <= s.balance)))
              || (action == Raise && amount > 0 && (!s.hasWallet || (call == Fine && toCall + amount <= s.balance)))
  {
  }

  /** Whatever an action puts in counts for the street, for the hand and for the pot alike, comes out of the wallet if
      there is one, and only a raise makes its player the one with whom the betting ends. */
  lemma ActionMovesBetsTogether(t: Table, i: nat, action: Action, amount: int, call: Fault)
    requires i < |t.seats| && Execute(t, i, action, amount, call).1
    ensures var t' := Execute(t, i, action, amount, call).0;
            var s, s' := t.seats[i], t'.seats[i];
            var paid := t'.pot - t.pot;
            && s'.roundRate == s.roundRate + paid && s'.totalBet == s.totalBet + paid
            && s'.balance == s.balance - (if s.hasWallet then paid else 0)
            && s'.user == s.user && s'.hasWallet == s.hasWallet
            && t'.tradingEnd == if action == Raise then Some(s.user) else t.tradingEnd
  {
  }

  /** A new street starts without bets: nobody has acted, a call costs nothing and a raise what it says, and pot, bets
      of the hand and wallets are as they were. */
  lemma StreetStartsAfresh(t: Table, i: nat, amount: int, call: Fault)
    requires i < |t.seats|
    ensures var t' := NewStreet(t);
            && |t'.seats| == |t.seats| && t'.pot == t.pot && t'.tradingEnd == t.tradingEnd && t'.maxRoundRate == 0
            && (var s, s' := t.seats[i], t'.seats[i];
                && !s'.hasActed && s'.roundRate == 0 && s'.totalBet == s.totalBet && s'.balance == s.balance
                && s'.state == s.state && s'.user == s.user && s'.hasWallet == s.hasWallet)
            && (var (t'', ok) := Execute(t', i, Call, amount, call);
                ok && t''.pot == t.pot && t''.seats[i].balance == t.seats[i].balance)
            && (var (t'', ok) := Execute(t', i, Raise, amount, call);
                ok ==> t''.pot == t.pot + amount && t''.maxRoundRate == amount)
  {
  }

  /** A new hand starts without pot and bets and with everybody in it, and the wallets are as they were. */
  lemma HandStartsAfresh(t: Table, i: nat)
    requires i < |t.seats|
    ensures var t' := ResetBets(t);
            var s, s' := t.seats[i], t'.seats[i];
            && |t'.seats| == |t.seats| && t'.pot == 0 && t'.maxRoundRate == 0
            && s'.state == Active && !s'.hasActed && s'.roundRate == 0 && s'.totalBet == 0
            && s'.balance == s.balance && s'.user == s.user && s'.hasWallet == s.hasWallet
  {
  }

  /** A posted blind: the player pays it, or everything and is all in; nobody else is touched. It is not posted exactly
      when the wallet call that it comes down to fails. */
  lemma BlindMeansWhatItSays(t: Table, i: nat, blind: nat, calls: BlindCalls)
    requires i < |t.seats| && t.seats[i].hasWallet && t.seats[i].balance >= 0
    ensures var (t', ok) := PostBlind(t, i, blind, calls);
            var s := t.seats[i];
            && (ok <==> calls.whole == Fine && (s.balance < blind ==> calls.rest == Fine))
            && |t'.seats| == |t.seats|
            && (forall j :: 0 <= j < |t.seats| && j != i ==> t'.seats[j] == t.seats[j])
            && t'.maxRoundRate == t.maxRoundRate && t'.tradingEnd == t.tradingEnd
            && (ok ==>
                  var s', paid := t'.seats[i], Min(blind, s.balance);
                  && t'.pot == t.pot + paid
                  && s'.roundRate == s.roundRate + paid && s'.totalBet == s.totalBet + paid
                  && s'.balance == s.balance - paid && s'.hasActed == s.hasActed && s'.user == s.user
                  && s'.state == if s.balance < blind then AllIn else s.state)
            && (!ok ==> t'.pot == t.pot)
  {
  }

  /** A hand that starts: everybody is in it and nobody has acted, the two blinds are what has been bet, the street's
      bet is the big blind, and the betting ends with its player. */
  lemma StartedHandMeansWhatItSays(t: Table, small: nat, big: nat, smallBlind: nat, calls: (BlindCalls, BlindCalls))
    requires small < |t.seats| && big < |t.seats| && small != big
    requires forall j :: 0 <= j < |t.seats| ==> t.seats[j].hasWallet && t.seats[j].balance >= 0
    requires Blinds(ResetBets(t), small, big, smallBlind, calls).1
    ensures var t' := Blinds(ResetBets(t), small, big, smallBlind, calls).0;
            && |t'.seats| == |t.seats|
            && t'.maxRoundRate == 2 * smallBlind && t'.tradingEnd == Some(t.seats[big].user)
            && t'.seats[small].totalBet == t'.seats[small].roundRate == Min(smallBlind, t.seats[small].balance)
            && t'.seats[big].totalBet == t'.seats[big].roundRate == Min(2 * smallBlind, t.seats[big].balance)
            && t'.pot == t'.seats[small].totalBet + t'.seats[big].totalBet
            && forall j :: 0 <= j < |t.seats| ==>
                 && !t'.seats[j].hasActed && t'.seats[j].user == t.seats[j].user
                 && (j != small && j != big ==>
                       t'.seats[j].totalBet == 0 && t'.seats[j].balance == t.seats[j].balance
                       && t'.seats[j].state == Active)
  {
    var reset := ResetBets(t);
    BlindMeansWhatItSays(reset, small, smallBlind, calls.0);
    var first := PostBlind(reset, small, smallBlind, calls.0).0;
    assert first.seats[big] == reset.seats[big];
    BlindMeansWhatItSays(first, big, smallBlind * 2, calls.1);
  }

  /** The betting invariant: the pot is the sum of the bets, and no player's street bet exceeds the table's. */
  ghost predicate BettingInv(t: Table) {
    && t.pot == SumBets(t.seats)
    && forall j :: 0 <= j < |t.seats| ==> SeatInv(t.maxRoundRate, t.seats[j])
  }

  ghost predicate SeatInv(maxRoundRate: int, s: Seat) {
    s.hasWallet && s.balance >= 0 && 0 <= s.roundRate <= maxRoundRate && s.roundRate <= s.totalBet
  }

  lemma ActionKeepsInv(t: Table, i: nat, action: Action, amount: int, call: Fault)
    requires BettingInv(t) && i < |t.seats|
    ensures BettingInv(Execute(t, i, action, amount, call).0)
  {
    ActionAccounting(t, i, action, amount, call);
    assert SeatInv(t.maxRoundRate, t.seats[i]);
    var t' := Execute(t, i, action, amount, call).0;
    forall j | 0 <= j < |t'.seats| ensures SeatInv(t'.maxRoundRate, t'.seats[j]) {
      assert SeatInv(t.maxRoundRate, t.seats[j]);
    }
  }

  lemma StreetKeepsInv(t: Table)
    requires BettingInv(t)
    ensures BettingInv(NewStreet(t)) && Chips(NewStreet(t)) == Chips(t)
  {
    var t' := NewStreet(t);
    SumsAgree(t'.seats, t.seats);
    forall j | 0 <= j < |t'.seats| ensures SeatInv(t'.maxRoundRate, t'.seats[j]) {
      assert SeatInv(t.maxRoundRate, t.seats[j]);
    }
  }

  /** What a blind takes from the wallet for nothing. */
  function LateBlind(t: Table, i: nat, blind: int, calls: BlindCalls): int
    requires i < |t.seats|
  {
    var s := t.seats[i];
    if calls.whole == Late && blind <= s.balance then blind
    else if calls.whole == Fine && blind > s.balance && calls.rest == Late then s.balance
    else 0
  }

  lemma BlindAccounting(t: Table, i: nat, blind: int, calls: BlindCalls)
    requires i < |t.seats| && t.seats[i].hasWallet && 0 <= t.seats[i].balance && blind >= 0
    ensures var (t', ok) := PostBlind(t, i, blind, calls);
            && Chips(t') == Chips(t) - LateBlind(t, i, blind, calls)
            && t'.pot - t.pot == SumBets(t'.seats) - SumBets(t.seats)
            && (ok ==> LateBlind(t, i, blind, calls) == 0)
  {
    SumsAfterUpdate(t.seats, i, PostBlind(t, i, blind, calls).0.seats[i]);
  }

  /** How a hand starts: `reset_bets`, then the blinds of two players. */
  function StartHand(t: Table, small: nat, big: nat, smallBlind: nat, calls: (BlindCalls, BlindCalls)): (Table, bool)
    requires small < |t.seats| && big < |t.seats|
  {
    Blinds(ResetBets(t), small, big, smallBlind, calls)
  }

  /** A hand that starts has kept every chip; one that does not start has lost exactly what a blind's wallet call took
      before it failed. */
  lemma StartHandAccounting(t: Table, small: nat, big: nat, smallBlind: nat, calls: (BlindCalls, BlindCalls))
    requires small < |t.seats| && big < |t.seats| && small != big
    requires forall j :: 0 <= j < |t.seats| ==> t.seats[j].hasWallet && t.seats[j].balance >= 0
    ensures var (t', ok) := StartHand(t, small, big, smallBlind, calls);
            && |t'.seats| == |t.seats|
            && (ok ==> BettingInv(t') && Chips(t') == SumBalances(t.seats))
            && (!ok ==>
                  var first := PostBlind(ResetBets(t), small, smallBlind, calls.0);
                  var late := if !first.1 then LateBlind(ResetBets(t), small, smallBlind, calls.0)
                              else LateBlind(first.0, big, smallBlind * 2, calls.1);
                  Chips(t') == SumBalances(t.seats) - late)
  {
    var reset := ResetBets(t);
    var (first, ok) := PostBlind(reset, small, smallBlind, calls.0);
    ZeroBets(reset.seats, t.seats);
    BlindAccounting(reset, small, smallBlind, calls.0);
    if ok {
      assert first.seats[big] == reset.seats[big];
      BlindAccounting(first, big, smallBlind * 2, calls.1);
      BlindKeepsSeats(reset, small, smallBlind, smallBlind * 2, calls.0);
      BlindKeepsSeats(first, big, smallBlind * 2, smallBlind * 2, calls.1);
    }
  }

  /** A first blind keeps every seat within the street's limit. */
  lemma BlindKeepsSeats(t: Table, i: nat, blind: nat, limit: int, calls: BlindCalls)
    requires i < |t.seats| && blind <= limit && t.seats[i].roundRate == 0 && t.seats[i].totalBet == 0
    requires forall j :: 0 <= j < |t.seats| ==> SeatInv(limit, t.seats[j])
    ensures forall j :: 0 <= j < |t.seats| ==> SeatInv(limit, PostBlind(t, i, blind, calls).0.seats[j])
  {
  }

  datatype Event = Act(seat: nat, action: Action, amount: int, call: Fault) | Street

  function Next(t: Table, e: Event): Table {
    match e
    case Act(i, action, amount, call) => if i < |t.seats| then Execute(t, i, action, amount, call).0 else t
    case Street => NewStreet(t)
  }

  function Play(t: Table, events: seq<Event>): Table {
    if events == [] then t else Next(Play(t, events[..|events| - 1]), events[|events| - 1])
  }

  /** What an event takes from a wallet for nothing. */
  function LateAt(t: Table, e: Event): nat {
    if e.Act? && e.seat < |t.seats| then LateDebit(t, e.seat, e.action, e.amount, e.call) else 0
  }

  function LateDebits(t: Table, events: seq<Event>): nat {
    if events == [] then 0
    else LateDebits(t, events[..|events| - 1]) + LateAt(Play(t, events[..|events| - 1]), events[|events| - 1])
  }

  /** No wallet call of the play fails after its debit. */
  ghost predicate NoneFailsLate(t: Table, events: seq<Event>) {
    events != [] ==>
      && NoneFailsLate(t, events[..|events| - 1])
      && LateAt(Play(t, events[..|events| - 1]), events[|events| - 1]) == 0
  }

  lemma LateDebitsAdd(t: Table, events: seq<Event>)
    ensures LateDebits(t, events) == 0 <==> NoneFailsLate(t, events)
  {
  }

  lemma StepAccounting(t: Table, e: Event)
    requires BettingInv(t)
    ensures BettingInv(Next(t, e)) && Chips(Next(t, e)) == Chips(t) - LateAt(t, e)
  {
    match e
    case Act(i, action, amount, call) =>
      if i < |t.seats| {
        ActionAccounting(t, i, action, amount, call);
        ActionKeepsInv(t, i, action, amount, call);
        assert SeatInv(t.maxRoundRate, t.seats[i]);
      }
    case Street =>
      StreetKeepsInv(t);
  }

  /** Whatever the players do and however the wallet calls go: the pot stays the sum of the bets, and wallets and pot
      together lose what failing calls debited. */
  lemma {:induction false} PlayAccounting(start: Table, events: seq<Event>)
    requires BettingInv(start)
    ensures BettingInv(Play(start, events))
    ensures Chips(Play(start, events)) == Chips(start) - LateDebits(start, events)
  {
    if events != [] {
      PlayAccounting(start, events[..|events| - 1]);
      StepAccounting(Play(start, events[..|events| - 1]), events[|events| - 1]);
    }
  }

  /** So from the first bet of a hand on, wallets and pot together hold what the wallets held before the hand, less what
      failing calls debited. */
  lemma ChipsAreAccountedFor(t: Table, small: nat, big: nat, smallBlind: nat,
                             calls: (BlindCalls, BlindCalls), events: seq<Event>)
    requires small < |t.seats| && big < |t.seats| && small != big
    requires forall j :: 0 <= j < |t.seats| ==> t.seats[j].hasWallet && t.seats[j].balance >= 0
    requires StartHand(t, small, big, smallBlind, calls).1
    ensures var start := StartHand(t, small, big, smallBlind, calls).0;
            && BettingInv(Play(start, events))
            && Chips(Play(start, events)) == SumBalances(t.seats) - LateDebits(start, events)
  {
    StartHandAccounting(t, small, big, smallBlind, calls);
    PlayAccounting(StartHand(t, small, big, smallBlind, calls).0, events);
  }

  /** The chips are conserved if and only if no wallet call fails after its debit. */
  lemma ChipsAreConservedExactlyWhen(t: Table, small: nat, big: nat, smallBlind: nat,
                                     calls: (BlindCalls, BlindCalls), events: seq<Event>)
    requires small < |t.seats| && big < |t.seats| && small != big
    requires forall j :: 0 <= j < |t.seats| ==> t.seats[j].hasWallet && t.seats[j].balance >= 0
    requires StartHand(t, small, big, smallBlind, calls).1
    ensures var start := StartHand(t, small, big, smallBlind, calls).0;
            Chips(Play(start, events)) == SumBalances(t.seats) <==> NoneFailsLate(start, events)
  {
    ChipsAreAccountedFor(t, small, big, smallBlind, calls, events);
    LateDebitsAdd(StartHand(t, small, big, smallBlind, calls).0, events);
  }

  // ---------------------------------------------------------------------------------------------
  // Showdown
  // ---------------------------------------------------------------------------------------------

  function UsersOf(seats: seq<Seat>): set<UserId> {
    if seats == [] then {} else {seats[0].user} + UsersOf(seats[1..])
  }

  ghost predicate OneSeatPerUser(seats: seq<Seat>) {
    seats == [] || (seats[0].user !in UsersOf(seats[1..]) && OneSeatPerUser(seats[1..]))
  }

  predicate Contends(s: Seat) {
    s.state == Active || s.state == AllIn
  }

  /** `players_by` and `_evaluate_contender_hands`, with the score of each seat's hand given. */
  function Contenders(seats: seq<Seat>, scores: seq<int>): seq<Contender>
    requires |scores| == |seats|
  {
    if seats == [] then []
    else
      var rest := Contenders(seats[1..], scores[1..]);
      if Contends(seats[0]) then [Contender(seats[0].user, seats[0].totalBet, scores[0])] + rest else rest
  }

  /** How many of these players have not folded. */
  function Standing(seats: seq<Seat>): nat {
    if seats == [] then 0 else (if seats[0].state != Folded then 1 else 0) + Standing(seats[1..])
  }

  /** Everybody who has not folded contends with the bets of the hand and the own cards, the all-in players too, in the
      order of the seats, and nobody else does. */
  lemma {:induction false} ContendersInSeatOrder(seats: seq<Seat>, scores: seq<int>, i: nat)
    requires |scores| == |seats| && i < |seats|
    ensures |Contenders(seats, scores)| == Standing(seats)
    ensures seats[i].state != Folded ==>
              && Standing(seats[..i]) < Standing(seats)
              && Contenders(seats, scores)[Standing(seats[..i])] ==
                 Contender(seats[i].user, seats[i].totalBet, scores[i])
  {
    if i > 0 {
      assert seats[..i][0] == seats[0] && seats[..i][1..] == seats[1..][..i - 1];
      ContendersInSeatOrder(seats[1..], scores[1..], i - 1);
    } else if |seats| > 1 {
      ContendersInSeatOrder(seats[1..], scores[1..], 0);
    }
  }

  lemma ContendersAreSeated(seats: seq<Seat>, scores: seq<int>)
    requires |scores| == |seats| && OneSeatPerUser(seats)
    ensures DistinctUsers(Contenders(seats, scores)) && Users(Contenders(seats, scores)) <= UsersOf(seats)
  {
    if seats != [] {
      ContendersAreSeated(seats[1..], scores[1..]);
    }
  }

  lemma ContendersBetAtMostThePot(seats: seq<Seat>, scores: seq<int>)
    requires |scores| == |seats| && forall j :: 0 <= j < |seats| ==> seats[j].totalBet >= 0
    ensures Staked(Contenders(seats, scores)) <= SumBets(seats)
  {
    if seats != [] {
      ContendersBetAtMostThePot(seats[1..], scores[1..]);
    }
  }

  /** What the pots pay to the seated players. */
  function PaidToSeats(pots: seq<Pot>, seats: seq<Seat>): int {
    if seats == [] then 0 else Max0(Payout(pots, seats[0].user)) + PaidToSeats(pots, seats[1..])
  }

  lemma OnlyContendersArePaid(pots: seq<Pot>, seats: seq<Seat>, scores: seq<int>)
    requires |scores| == |seats| && OneSeatPerUser(seats)
    requires forall user :: user !in Users(Contenders(seats, scores)) && user in UsersOf(seats) ==>
               Payout(pots, user) == 0
    requires forall user :: user in Users(Contenders(seats, scores)) ==> Payout(pots, user) >= 0
    ensures PaidToSeats(pots, seats) == PaidTo(pots, Contenders(seats, scores))
  {
    if seats != [] {
      var rest := Contenders(seats[1..], scores[1..]);
      ContendersAreSeated(seats[1..], scores[1..]);
      OnlyContendersArePaid(pots, seats[1..], scores[1..]);
    }
  }

  lemma PayoutsAreNatural(gamePot: int, ds: seq<Contender>, user: UserId)
    requires DistinctUsers(ds)
    ensures Payout(PotsByChips(gamePot, ds), user) >= 0
    ensures user !in Users(ds) ==> Payout(PotsByChips(gamePot, ds), user) == 0
  {
    if user in Users(ds) {
      var d := UserHasContender(ds, user);
      PayoutIsCapped(gamePot, ds, d);
    } else if gamePot != 0 {
      OutsiderGetsNothing(ds, DeadMoney(gamePot, ds), |Tiers(ds)|, user);
    }
  }

  lemma UserHasContender(ds: seq<Contender>, user: UserId) returns (d: Contender)
    requires user in Users(ds)
    ensures d in ds && d.user == user
  {
    if ds[0].user == user {
      d := ds[0];
    } else {
      d := UserHasContender(ds[1..], user);
    }
  }

  /** Every positive payout reaches its wallet: no call for it is lost, and none before it fails. */
  ghost predicate EveryCreditTakesEffect(seats: seq<Seat>, payouts: map<UserId, int>, calls: seq<Fault>)
    requires |calls| == |seats|
  {
    forall j :: 0 <= j < |seats| && IsPaid(payouts, seats[j]) ==>
      && seats[j].hasWallet && calls[j] != Lost
      && forall i :: 0 <= i < j && IsPaid(payouts, seats[i]) ==> calls[i] == Fine
  }

  lemma CreditsAfterTheFirst(seats: seq<Seat>, payouts: map<UserId, int>, calls: seq<Fault>)
    requires |calls| == |seats| > 0
    ensures EveryCreditTakesEffect(seats, payouts, calls) <==>
              && EveryCreditTakesEffect(seats[1..], payouts, calls[1..])
              && (IsPaid(payouts, seats[0]) ==>
                    && seats[0].hasWallet && calls[0] != Lost
                    && (calls[0] == Late ==> forall j :: 1 <= j < |seats| ==> !IsPaid(payouts, seats[j])))
  {
    if EveryCreditTakesEffect(seats, payouts, calls) {
      forall j | 0 <= j < |seats[1..]| && IsPaid(payouts, seats[1..][j])
        ensures seats[1..][j].hasWallet && calls[1..][j] != Lost
        ensures forall i :: 0 <= i < j && IsPaid(payouts, seats[1..][i]) ==> calls[1..][i] == Fine
      {
        assert IsPaid(payouts, seats[j + 1]);
        forall i | 0 <= i < j && IsPaid(payouts, seats[1..][i]) ensures calls[1..][i] == Fine {
          assert IsPaid(payouts, seats[i + 1]);
        }
      }
    }
    if EveryCreditTakesEffect(seats[1..], payouts, calls[1..]) {
      forall j | 1 <= j < |seats| && IsPaid(payouts, seats[j])
        ensures seats[j].hasWallet && calls[j] != Lost
        ensures forall i :: 1 <= i < j && IsPaid(payouts, seats[i]) ==> calls[i] == Fine
      {
        assert IsPaid(payouts, seats[1..][j - 1]);
        forall i | 1 <= i < j && IsPaid(payouts, seats[i]) ensures calls[i] == Fine {
          assert IsPaid(payouts, seats[1..][i - 1]);
        }
      }
    }
  }

  lemma NothingToPay(seats: seq<Seat>, payouts: map<UserId, int>, pots: seq<Pot>)
    requires forall user :: Get(payouts, user) == Payout(pots, user)
    ensures PaidToSeats(pots, seats) >= 0
    ensures PaidToSeats(pots, seats) == 0 <==> forall j :: 0 <= j < |seats| ==> !IsPaid(payouts, seats[j])
  {
    if seats != [] {
      NothingToPay(seats[1..], payouts, pots);
      assert seats == [seats[0]] + seats[1..];
    }
  }

  /** The wallets never get more than the payouts, and all of them exactly when every credit takes effect. */
  lemma {:induction false} CreditsAddUp(seats: seq<Seat>, payouts: map<UserId, int>, calls: seq<Fault>,
                                        pots: seq<Pot>)
    requires |calls| == |seats| && forall user :: Get(payouts, user) == Payout(pots, user)
    ensures var after := SumBalances(Credited(seats, payouts, calls).0);
            var due := SumBalances(seats) + PaidToSeats(pots, seats);
            after <= due && (after == due <==> EveryCreditTakesEffect(seats, payouts, calls))
    ensures Credited(seats, payouts, calls).1 ==> EveryCreditTakesEffect(seats, payouts, calls)
  {
    if seats != [] {
      CreditsAddUp(seats[1..], payouts, calls[1..], pots);
      CreditsAfterTheFirst(seats, payouts, calls);
      NothingToPay(seats[1..], payouts, pots);
      assert forall j :: 1 <= j < |seats| ==> seats[j] == seats[1..][j - 1];
      assert forall j :: 0 <= j < |seats[1..]| ==> seats[1..][j] == seats[j + 1];
    }
  }

  /** The first payout whose wallet call fails ends them all: it is paid if the call failed late, those before it are
      paid, and nobody behind it is. */
  lemma {:induction false} FailedCreditEndsThePayouts(seats: seq<Seat>, payouts: map<UserId, int>, calls: seq<Fault>,
                                                      j: nat)
    requires j < |calls| == |seats| && IsPaid(payouts, seats[j]) && !(seats[j].hasWallet && calls[j] == Fine)
    requires forall i :: 0 <= i < j && IsPaid(payouts, seats[i]) ==> seats[i].hasWallet && calls[i] == Fine
    ensures var (after, ok) := Credited(seats, payouts, calls);
            && !ok
            && (forall i :: 0 <= i < j ==>
                  after[i] == if IsPaid(payouts, seats[i]) then Paid(payouts, seats[i]) else seats[i])
            && after[j] == (if seats[j].hasWallet && calls[j] == Late then Paid(payouts, seats[j]) else seats[j])
            && after[j + 1..] == seats[j + 1..]
  {
    if j > 0 {
      assert seats[1..][j - 1] == seats[j] && calls[1..][j - 1] == calls[j];
      forall i | 0 <= i < j - 1 && IsPaid(payouts, seats[1..][i])
        ensures seats[1..][i].hasWallet && calls[1..][i] == Fine
      {
        assert IsPaid(payouts, seats[i + 1]);
      }
      FailedCreditEndsThePayouts(seats[1..], payouts, calls[1..], j - 1);
      var after := Credited(seats, payouts, calls).0;
      var rest := Credited(seats[1..], payouts, calls[1..]).0;
      assert after[1..] == rest && rest[j..] == seats[1..][j..];
      assert after[j + 1..] == after[1..][j..] && seats[j + 1..] == seats[1..][j..];
      forall i | 1 <= i < j
        ensures after[i] == if IsPaid(payouts, seats[i]) then Paid(payouts, seats[i]) else seats[i]
      {
        assert after[i] == rest[i - 1] && seats[i] == seats[1..][i - 1];
      }
    }
  }

  /** The showdown credits the wallets with the whole pot, if some contender bet something, and with nothing otherwise;
      with less exactly when some credit does not take effect. */
  lemma ShowdownAccounting(t: Table, scores: seq<int>, payouts: map<UserId, int>, calls: seq<Fault>)
    requires BettingInv(t) && OneSeatPerUser(t.seats) && |scores| == |calls| == |t.seats|
    requires var ds := Contenders(t.seats, scores);
             forall user :: Get(payouts, user) == Payout(PotsByChips(t.pot, ds), user)
    ensures var (t', ok) := Distribute(t, payouts, calls);
            var staked := Staked(Contenders(t.seats, scores));
            var due := SumBalances(t.seats) + (if staked > 0 then t.pot else 0);
            && SumBalances(t'.seats) <= due
            && (SumBalances(t'.seats) == due <==> EveryCreditTakesEffect(t.seats, payouts, calls))
            && (ok ==> SumBalances(t'.seats) == due)
  {
    var ds := Contenders(t.seats, scores);
    var pots := PotsByChips(t.pot, ds);
    PaidToSeatsIsThePot(t, scores);
    CreditsAddUp(t.seats, payouts, calls, pots);
  }

  lemma PaidToSeatsIsThePot(t: Table, scores: seq<int>)
    requires BettingInv(t) && OneSeatPerUser(t.seats) && |scores| == |t.seats|
    ensures var ds := Contenders(t.seats, scores);
            PaidToSeats(PotsByChips(t.pot, ds), t.seats) == if Staked(ds) > 0 then t.pot else 0
  {
    var ds := Contenders(t.seats, scores);
    var pots := PotsByChips(t.pot, ds);
    ContendersAreSeated(t.seats, scores);
    forall user ensures Payout(pots, user) >= 0 && (user !in Users(ds) ==> Payout(pots, user) == 0) {
      PayoutsAreNatural(t.pot, ds, user);
    }
    OnlyContendersArePaid(pots, t.seats, scores);
    forall j | 0 <= j < |t.seats| ensures t.seats[j].totalBet >= 0 {
      assert SeatInv(t.maxRoundRate, t.seats[j]);
    }
    ContendersBetAtMostThePot(t.seats, scores);
    PaysExactlyThePot(t.pot, ds);
    StakedMeansTiers(ds);
    if Staked(ds) == 0 {
      NobodyPaid(ds);
    }
  }

  /** `_determine_winners` and `_execute_payouts`; then the pot is cleared as in `_reset_core_game_state`, unless a
      wallet call raised. */
  method SettleHand(game: Game, scores: seq<int>, calls: seq<Fault>) returns (payouts: map<UserId, int>, ok: bool)
    requires game.Valid() && |scores| == |calls| == |game.players|
    requires BettingInv(game.View()) && OneSeatPerUser(game.Seats())
    modifies game`pot, game.players
    ensures game.pot == if ok then 0 else old(game.pot)
    ensures var pots := old(PotsByChips(game.pot, Contenders(game.Seats(), scores)));
            forall user :: Get(payouts, user) == Payout(pots, user)
    ensures var staked := old(Staked(Contenders(game.Seats(), scores)));
            var due := old(SumBalances(game.Seats())) + (if staked > 0 then old(game.pot) else 0);
            && SumBalances(game.Seats()) <= due
            && (SumBalances(game.Seats()) == due <==> EveryCreditTakesEffect(old(game.Seats()), payouts, calls))
            && (ok ==> SumBalances(game.Seats()) == due)
  {
    ghost var before := game.View();
    var details := Contenders(game.Seats(), scores);
    var pots := DeterminePotWinners(game.pot, details);
    payouts := ProcessShowdown(pots);
    ok := game.DistributePayouts(payouts, calls);
    ShowdownAccounting(before, scores, payouts, calls);
    ghost var settled := game.Seats();
    if ok {
      game.pot := 0;
    }
    assert game.Seats() == settled;
  }

  ghost predicate SameUsers(a: seq<Seat>, b: seq<Seat>) {
    |a| == |b| && forall j :: 0 <= j < |a| ==> a[j].user == b[j].user
  }

  lemma SameUsersSameSeating(a: seq<Seat>, b: seq<Seat>)
    requires SameUsers(a, b)
    ensures UsersOf(a) == UsersOf(b) && (OneSeatPerUser(a) <==> OneSeatPerUser(b))
  {
    if a != [] {
      SameUsersSameSeating(a[1..], b[1..]);
    }
  }

  lemma {:induction false} PlayKeepsUsers(t: Table, events: seq<Event>)
    ensures SameUsers(Play(t, events).seats, t.seats)
  {
    if events != [] {
      PlayKeepsUsers(t, events[..|events| - 1]);
    }
  }

  lemma PotIsNatural(t: Table)
    requires BettingInv(t)
    ensures t.pot >= 0
  {
    forall j | 0 <= j < |t.seats| ensures t.seats[j].totalBet >= 0 {
      assert SeatInv(t.maxRoundRate, t.seats[j]);
    }
    NoNegativeSum(t.seats);
  }

  lemma NoNegativeSum(seats: seq<Seat>)
    requires forall j :: 0 <= j < |seats| ==> seats[j].totalBet >= 0
    ensures SumBets(seats) >= 0
  {
  }

  /** The rest of a hand from any moment at which the betting invariant holds. */
  lemma WholePlay(start: Table, events: seq<Event>, scores: seq<int>, payouts: map<UserId, int>, calls: seq<Fault>)
    requires BettingInv(start) && OneSeatPerUser(start.seats)
    requires var t' := Play(start, events);
             && |scores| == |calls| == |t'.seats|
             && forall user :: Get(payouts, user) == Payout(PotsByChips(t'.pot, Contenders(t'.seats, scores)), user)
    ensures var t' := Play(start, events);
            SumBalances(Distribute(t', payouts, calls).0.seats) == Chips(start) <==>
              && NoneFailsLate(start, events)
              && EveryCreditTakesEffect(t'.seats, payouts, calls)
              && (t'.pot == 0 || exists d :: d in Contenders(t'.seats, scores) && d.totalBet > 0)
  {
    var t' := Play(start, events);
    PlayKeepsUsers(start, events);
    SameUsersSameSeating(t'.seats, start.seats);
    PlayAccounting(start, events);
    LateDebitsAdd(start, events);
    ShowdownAccounting(t', scores, payouts, calls);
    StakedExactlyWhenSomeoneBet(Contenders(t'.seats, scores));
    PotIsNatural(t');
  }

  lemma StartKeepsUsers(t: Table, small: nat, big: nat, smallBlind: nat, calls: (BlindCalls, BlindCalls))
    requires small < |t.seats| && big < |t.seats|
    ensures SameUsers(StartHand(t, small, big, smallBlind, calls).0.seats, t.seats)
  {
    var first := PostBlind(ResetBets(t), small, smallBlind, calls.0);
    assert SameUsers(first.0.seats, t.seats);
  }

  /** A whole hand: after any play, paying out the showdown leaves the wallets with exactly what they held before the
      hand if and only if no wallet call of the play failed after its debit, every credit of a payout takes effect, and
      the pot was empty or a contender had bet something. */
  lemma WholeHandConservesChips(t: Table, small: nat, big: nat, smallBlind: nat, calls: (BlindCalls, BlindCalls),
                                events: seq<Event>, scores: seq<int>, payouts: map<UserId, int>,
                                credits: seq<Fault>)
    requires small < |t.seats| && big < |t.seats| && small != big
    requires forall j :: 0 <= j < |t.seats| ==> t.seats[j].hasWallet && t.seats[j].balance >= 0
    requires OneSeatPerUser(t.seats) && StartHand(t, small, big, smallBlind, calls).1
    requires var t' := Play(StartHand(t, small, big, smallBlind, calls).0, events);
             && |scores| == |credits| == |t'.seats|
             && forall user :: Get(payouts, user) == Payout(PotsByChips(t'.pot, Contenders(t'.seats, scores)), user)
    ensures var start := StartHand(t, small, big, smallBlind, calls).0;
            var t' := Play(start, events);
            SumBalances(Distribute(t', payouts, credits).0.seats) == SumBalances(t.seats) <==>
              && NoneFailsLate(start, events)
              && EveryCreditTakesEffect(t'.seats, payouts, credits)
              && (t'.pot == 0 || exists d :: d in Contenders(t'.seats, scores) && d.totalBet > 0)
  {
    var start := StartHand(t, small, big, smallBlind, calls).0;
    StartHandAccounting(t, small, big, smallBlind, calls);
    StartKeepsUsers(t, small, big, smallBlind, calls);
    SameUsersSameSeating(start.seats, t.seats);
    WholePlay(start, events, scores, payouts, credits);
  }

  lemma PlayMore(t: Table, events: seq<Event>, e: Event)
    ensures Play(t, events + [e]) == Next(Play(t, events), e)
  {
    assert (events + [e])[..|events|] == events;
  }

  lemma PlayThree(t: Table, a: Event, b: Event, c: Event)
    ensures Play(t, [a, b, c]) == Next(Next(Next(t, a), b), c)
  {
    PlayMore(t, [], a);
    PlayMore(t, [a], b);
    PlayMore(t, [a, b], c);
    assert [] + [a] == [a] && [a] + [b] == [a, b] && [a, b] + [c] == [a, b, c];
  }

  /** Three players of whom the first two post the blinds. */
  lemma ThreePlayersStart(t: Table, smallBlind: nat, calls: (BlindCalls, BlindCalls))
    requires |t.seats| == 3 && calls.0.whole == Fine && calls.1.whole == Fine
    requires forall j :: 0 <= j < 3 ==> t.seats[j].hasWallet && t.seats[j].balance >= smallBlind * 2
    ensures var (t', ok) := StartHand(t, 0, 1, smallBlind, calls);
            && ok && |t'.seats| == 3 && t'.pot == smallBlind * 3
            && t'.seats[2].totalBet == 0 && t'.seats[2].user == t.seats[2].user && t'.seats[2].state == Active
  {
  }

  lemma LastOfThree(seats: seq<Seat>, scores: seq<int>)
    requires |seats| == |scores| == 3
    requires !Contends(seats[0]) && !Contends(seats[1]) && Contends(seats[2])
    ensures Contenders(seats, scores) == [Contender(seats[2].user, seats[2].totalBet, scores[2])]
  {
    var (s1, c1) := (seats[1..], scores[1..]);
    var (s2, c2) := (s1[1..], c1[1..]);
    assert s2 == [seats[2]] && c2 == [scores[2]] && s2[1..] == [];
    assert Contenders(s2, c2) == [Contender(seats[2].user, seats[2].totalBet, scores[2])];
    assert Contenders(s1, c1) == Contenders(s2, c2);
  }

  /** The condition can fail in play: the blinds fold behind a player who checked without betting, and the blinds'
      chips, whatever their size, belong to a single contender without a bet. */
  lemma BlindsCanBeLost(t: Table, smallBlind: nat, calls: (BlindCalls, BlindCalls), scores: seq<int>)
    returns (events: seq<Event>)
    requires |t.seats| == |scores| == 3 && calls.0.whole == Fine && calls.1.whole == Fine
    requires forall j :: 0 <= j < 3 ==> t.seats[j].hasWallet && t.seats[j].balance >= smallBlind * 2
    ensures StartHand(t, 0, 1, smallBlind, calls).1
    ensures var t' := Play(StartHand(t, 0, 1, smallBlind, calls).0, events);
            && |t'.seats| == 3 && t'.pot == smallBlind * 3
            && Contenders(t'.seats, scores) == [Contender(t.seats[2].user, 0, scores[2])]
  {
    var check, fold0, fold1 := Act(2, Check, 0, Fine), Act(0, Fold, 0, Fine), Act(1, Fold, 0, Fine);
    events := [check, fold0, fold1];
    var start := StartHand(t, 0, 1, smallBlind, calls).0;
    ThreePlayersStart(t, smallBlind, calls);
    PlayThree(start, check, fold0, fold1);
    LastOfThree(Play(start, events).seats, scores);
  }

  lemma StakedExactlyWhenSomeoneBet(ds: seq<Contender>)
    ensures Staked(ds) > 0 <==> exists d :: d in ds && d.totalBet > 0
    ensures Staked(ds) >= 0
  {
    StakedMeansTiers(ds);
    if Staked(ds) > 0 {
      var d := TierIsBet(ds, Tiers(ds)[0]);
    }
    if d :| d in ds && d.totalBet > 0 {
      BetIsTier(ds, d);
    }
  }
}
