/** Player actions on the stored table document (pokerapp/game_engine.py, `handle_player_action` and its
    helpers) and the compare-and-set script that saves them, for any number of clients at once. */
module ConcurrentActions {
  import opened Basics

  /** The entry of one player in the document. */
  datatype PlayerRec = PlayerRec(userId: int, chips: int, bet: int, hasActed: bool, folded: bool)

  datatype Doc = Doc(players: seq<PlayerRec>, currentBet: int, pot: int, currentIndex: int)

  datatype Action = Fold | Check | Call | Raise | AllIn

  datatype Request = Request(user: int, action: Action, amount: int)

  // ---------------------------------------------------------------------------------------------
  // Specification of the helpers
  // ---------------------------------------------------------------------------------------------

  /** `_find_player`: the first entry of the user. */
  function FindPlayer(players: seq<PlayerRec>, user: int): (r: Option<nat>)
    ensures r.Some? ==>
              && r.value < |players| && players[r.value].userId == user
              && forall j :: 0 <= j < r.value ==> players[j].userId != user
    ensures r == None ==> forall j :: 0 <= j < |players| ==> players[j].userId != user
  {
    if players == [] then None
    else if players[0].userId == user then Some(0)
    else
      match FindPlayer(players[1..], user)
      case None => None
      case Some(i) => Some(i + 1)
  }

  /** `_is_valid_action` */
  predicate ValidAction(p: PlayerRec, action: Action, amount: int) {
    !p.folded && (action == Raise ==> amount > 0)
  }

  /** `_calculate_required_amount` */
  function RequiredAmount(action: Action, currentBet: int, bet: int, chips: int, raise: int): int {
    match action
    case Fold => 0
    case Check => 0
    case Call => currentBet - bet
    case Raise => (currentBet - bet) + raise
    case AllIn => chips
  }

  /** `_apply_player_action`; nothing when the player lacks the chips. */
  function ApplyAction(d: Doc, i: nat, action: Action, amount: int): Option<Doc>
    requires i < |d.players|
  {
    var p := d.players[i];
    match action
    case Fold => Some(d.(players := d.players[i := p.(folded := true, hasActed := true)]))
    case Check => Some(d.(players := d.players[i := p.(hasActed := true)]))
    case _ =>
      var contribution := Max(0, amount);
      if contribution > p.chips then None
      else
        var p' := p.(chips := p.chips - contribution, bet := p.bet + contribution, hasActed := true);
        Some(d.(players := d.players[i := p'],
                currentBet := if action == Call then d.currentBet else Max(d.currentBet, p'.bet)))
  }

  function Unfolded(players: seq<PlayerRec>): nat {
    if players == [] then 0 else (if players[0].folded then 0 else 1) + Unfolded(players[1..])
  }

  /** `_is_betting_round_complete` */
  predicate RoundComplete(d: Doc) {
    || Unfolded(d.players) <= 1
    || forall i :: 0 <= i < |d.players| && !d.players[i].folded ==>
         d.players[i].hasActed && (d.players[i].bet == d.currentBet || d.players[i].chips == 0)
  }

  /** `_needs_pot_update` */
  predicate NeedsPotUpdate(action: Action, d: Doc) {
    action in {Call, Raise, AllIn} && RoundComplete(d)
  }

  function SumBets(players: seq<PlayerRec>): int {
    if players == [] then 0 else Max(0, players[0].bet) + SumBets(players[1..])
  }

  function ClearBets(players: seq<PlayerRec>): (r: seq<PlayerRec>)
    ensures |r| == |players|
    ensures forall i :: 0 <= i < |r| ==> r[i] == players[i].(bet := 0)
  {
    if players == [] then [] else [players[0].(bet := 0)] + ClearBets(players[1..])
  }

  /** `_update_pot_from_bets` */
  function CollectPot(d: Doc): Doc {
    d.(pot := d.pot + SumBets(d.players), players := ClearBets(d.players))
  }

  /** The first seat after `current` that has not folded, looking round the table from `offset` on. */
  function NextIndex(players: seq<PlayerRec>, current: int, offset: nat): int
    decreases |players| - offset
  {
    if offset > |players| || players == [] then current
    else
      var next := (current + offset) % |players|;
      if !players[next].folded then next else NextIndex(players, current, offset + 1)
  }

  /** `_advance_to_next_player` */
  function AdvanceTurn(d: Doc): Doc {
    d.(currentIndex := NextIndex(d.players, d.currentIndex, 1))
  }

  /** What an accepted request makes of the document it was computed from. */
  function Process(d: Doc, r: Request): Option<Doc> {
    match FindPlayer(d.players, r.user)
    case None => None
    case Some(i) =>
      var p := d.players[i];
      if p.hasActed then None
      else
        match ApplyAction(d, i, r.action, RequiredAmount(r.action, d.currentBet, p.bet, p.chips, r.amount))
        case None => None
        case Some(applied) =>
          Some(AdvanceTurn(if NeedsPotUpdate(r.action, applied) then CollectPot(applied) else applied))
  }

  // ---------------------------------------------------------------------------------------------
  // The dictionary that the handler mutates
  // ---------------------------------------------------------------------------------------------

  class TableState {
    var players: seq<PlayerRec>
    var currentBet: int
    var pot: int
    var currentIndex: int

    constructor (d: Doc)
      ensures View() == d
    {
      players, currentBet, pot, currentIndex := d.players, d.currentBet, d.pot, d.currentIndex;
    }

    function View(): Doc
      reads this
    {
      Doc(players, currentBet, pot, currentIndex)
    }

    method ApplyPlayerAction(i: nat, action: Action, amount: int) returns (ok: bool)
      requires i < |players|
      modifies this
      ensures ok <==> ApplyAction(old(View()), i, action, amount).Some?
      ensures View() == if ok then ApplyAction(old(View()), i, action, amount).value else old(View())
    {
      var player := players[i];
      if action == Fold {
        players := players[i := player.(folded := true, hasActed := true)];
        return true;
      }
      if action == Check {
        players := players[i := player.(hasActed := true)];
        return true;
      }
      var contribution := Max(0, amount);
      if contribution > player.chips {
        return false;
      }
      player := player.(chips := player.chips - contribution, bet := player.bet + contribution, hasActed := true);
      players := players[i := player];
      if action == Raise || action == AllIn {
        currentBet := Max(currentBet, player.bet);
      }
      return true;
    }

    method UpdatePotFromBets()
      modifies this
      ensures View() == CollectPot(old(View()))
    {
      var total := 0;
      for k := 0 to |players|
        invariant View() == old(View())
        invariant total + SumBets(players[k..]) == SumBets(players)
      {
        total := total + Max(0, players[k].bet);
        assert players[k..][1..] == players[k + 1..];
      }
      pot := pot + total;
      for k := 0 to |players|
        invariant |players| == |old(players)| && pot == old(pot) + total
        invariant currentBet == old(currentBet) && currentIndex == old(currentIndex)
        invariant forall j :: 0 <= j < |players| ==>
                    players[j] == if j < k then old(players)[j].(bet := 0) else old(players)[j]
      {
        players := players[k := players[k].(bet := 0)];
      }
      assert players == ClearBets(old(players));
    }

    method AdvanceToNextPlayer()
      modifies this`currentIndex
      ensures View() == AdvanceTurn(old(View()))
    {
      for offset := 1 to |players| + 1
        invariant currentIndex == old(currentIndex)
        invariant NextIndex(players, currentIndex, offset) == NextIndex(players, currentIndex, 1)
      {
        var next := (currentIndex + offset) % |players|;
        if !players[next].folded {
          currentIndex := next;
          return;
        }
      }
    }

    method IsBettingRoundComplete() returns (complete: bool)
      ensures complete == RoundComplete(View())
    {
      var active := 0;
      for k := 0 to |players|
        invariant active + Unfolded(players[k..]) == Unfolded(players)
      {
        if !players[k].folded {
          active := active + 1;
        }
        assert players[k..][1..] == players[k + 1..];
      }
      if active <= 1 {
        return true;
      }
      complete := true;
      for k := 0 to |players|
        invariant complete <==> forall i :: 0 <= i < k && !players[i].folded ==>
                    players[i].hasActed && (players[i].bet == currentBet || players[i].chips == 0)
      {
        if !players[k].folded {
          complete := complete && players[k].hasActed && (players[k].bet == currentBet || players[k].chips == 0);
        }
      }
    }
  }

  /** Steps 2 to 4 of `handle_player_action` on a freshly loaded document, up to the save. */
  method PrepareAction(d: Doc, r: Request) returns (out: Option<Doc>)
    ensures out == Process(d, r)
  {
    var found := FindPlayer(d.players, r.user);
    if found == None {
      return None;
    }
    var i := found.value;
    var player := d.players[i];
    if player.hasActed {
      return None;
    }
    var state := new TableState(d);
    var required := RequiredAmount(r.action, state.currentBet, player.bet, player.chips, r.amount);
    var ok := state.ApplyPlayerAction(i, r.action, required);
    if !ok {
      return None;
    }
    if r.action in {Call, Raise, AllIn} {
      var complete := state.IsBettingRoundComplete();
      if complete {
        state.UpdatePotFromBets();
      }
    }
    state.AdvanceToNextPlayer();
    return Some(state.View());
  }

  // ---------------------------------------------------------------------------------------------
  // What one action keeps
  // ---------------------------------------------------------------------------------------------

  function SumChips(players: seq<PlayerRec>): int {
    if players == [] then 0 else players[0].chips + players[0].bet + SumChips(players[1..])
  }

  /** All chips at the table. */
  function Chips(d: Doc): int {
    SumChips(d.players) + d.pot
  }

  predicate GoodPlayer(p: PlayerRec, currentBet: int) {
    p.chips >= 0 && 0 <= p.bet <= currentBet && (p.folded ==> p.hasActed)
  }

  /** Nobody is in debt, no bet is above the current bet, and whoever folded has acted. */
  ghost predicate Good(d: Doc) {
    forall i :: 0 <= i < |d.players| ==> GoodPlayer(d.players[i], d.currentBet)
  }

  lemma SumAfterUpdate(players: seq<PlayerRec>, i: nat, p: PlayerRec)
    requires i < |players|
    ensures SumChips(players[i := p]) ==
              SumChips(players) - players[i].chips - players[i].bet + p.chips + p.bet
  {
    if i > 0 {
      SumAfterUpdate(players[1..], i - 1, p);
      assert players[i := p][1..] == players[1..][i - 1 := p];
    }
  }

  lemma CollectingMovesBets(players: seq<PlayerRec>)
    requires forall i :: 0 <= i < |players| ==> players[i].bet >= 0
    ensures SumChips(players) == SumChips(ClearBets(players)) + SumBets(players)
  {
    if players != [] {
      CollectingMovesBets(players[1..]);
    }
  }

  lemma ApplyKeepsGood(d: Doc, i: nat, r: Request)
    requires Good(d) && i < |d.players| && (r.action == Raise ==> r.amount > 0)
    requires var p := d.players[i];
             ApplyAction(d, i, r.action, RequiredAmount(r.action, d.currentBet, p.bet, p.chips, r.amount)).Some?
    ensures var p := d.players[i];
            var required := RequiredAmount(r.action, d.currentBet, p.bet, p.chips, r.amount);
            var d' := ApplyAction(d, i, r.action, required).value;
            Good(d') && Chips(d') == Chips(d)
  {
    var p := d.players[i];
    var d' := ApplyAction(d, i, r.action, RequiredAmount(r.action, d.currentBet, p.bet, p.chips, r.amount)).value;
    assert GoodPlayer(p, d.currentBet);
    SumAfterUpdate(d.players, i, d'.players[i]);
    forall j | 0 <= j < |d'.players| ensures GoodPlayer(d'.players[j], d'.currentBet) {
      assert GoodPlayer(d.players[j], d.currentBet);
    }
  }

  /** What an accepted action means for its player and for nobody else: a call matches the current bet, a raise
      exceeds it by its amount and becomes it, going all in leaves no chips, and only a fold folds. It is refused
      exactly for want of chips. */
  lemma ActionMeansWhatItSays(d: Doc, i: nat, r: Request)
    requires Good(d) && i < |d.players| && (r.action == Raise ==> r.amount > 0)
    ensures var p := d.players[i];
            var out := ApplyAction(d, i, r.action, RequiredAmount(r.action, d.currentBet, p.bet, p.chips, r.amount));
            && (out == None <==> (r.action == Call && d.currentBet - p.bet > p.chips)
                                 || (r.action == Raise && d.currentBet - p.bet + r.amount > p.chips))
            && (out.Some? ==>
                  var d' := out.value;
                  var p' := d'.players[i];
                  && d' == d.(players := d.players[i := p'], currentBet := d'.currentBet)
                  && p'.hasActed && p'.userId == p.userId && (p'.folded <==> p.folded || r.action == Fold)
                  && p'.chips + p'.bet == p.chips + p.bet
                  && (r.action == Call ==> p'.bet == d'.currentBet == d.currentBet)
                  && (r.action == Raise ==> p'.bet == d'.currentBet == d.currentBet + r.amount)
                  && (r.action == AllIn ==> p'.chips == 0 && d'.currentBet == Max(d.currentBet, p'.bet))
                  && (r.action in {Fold, Check} ==> p'.bet == p.bet && d'.currentBet == d.currentBet))
  {
    assert GoodPlayer(d.players[i], d.currentBet);
  }

  lemma {:induction false} NextIndexFrom(players: seq<PlayerRec>, current: int, offset: nat, i: nat)
    requires offset >= 1 && i < |players| && !players[i].folded && Distance(current, i, |players|) >= offset
    ensures var next := NextIndex(players, current, offset);
            && 0 <= next < |players| && !players[next].folded
            && Distance(current, next, |players|) <= Distance(current, i, |players|)
    decreases |players| - offset
  {
    if players[(current + offset) % |players|].folded {
      NextIndexFrom(players, current, offset + 1, i);
    } else {
      DistanceOf(current, offset, |players|);
    }
  }

  lemma {:induction false} NobodyLeft(players: seq<PlayerRec>, current: int, offset: nat)
    requires forall i :: 0 <= i < |players| ==> players[i].folded
    ensures NextIndex(players, current, offset) == current
    decreases |players| - offset
  {
    if offset <= |players| && players != [] {
      NobodyLeft(players, current, offset + 1);
    }
  }

  /** The turn passes to the nearest player behind the current one who has not folded, and stays where it is
      only when everybody has. */
  lemma TurnPassesToTheNearest(d: Doc)
    ensures var next := AdvanceTurn(d).currentIndex;
            if forall i :: 0 <= i < |d.players| ==> d.players[i].folded then next == d.currentIndex
            else
              && 0 <= next < |d.players| && !d.players[next].folded
              && forall i :: 0 <= i < |d.players| && !d.players[i].folded ==>
                   Distance(d.currentIndex, next, |d.players|) <= Distance(d.currentIndex, i, |d.players|)
  {
    if forall i :: 0 <= i < |d.players| ==> d.players[i].folded {
      NobodyLeft(d.players, d.currentIndex, 1);
    } else {
      forall i | 0 <= i < |d.players| && !d.players[i].folded
        ensures var next := AdvanceTurn(d).currentIndex;
                && 0 <= next < |d.players| && !d.players[next].folded
                && Distance(d.currentIndex, next, |d.players|) <= Distance(d.currentIndex, i, |d.players|)
      {
        NextIndexFrom(d.players, d.currentIndex, 1, i);
      }
    }
  }

  lemma CollectKeepsGood(d: Doc)
    requires Good(d)
    ensures Good(CollectPot(d)) && Chips(CollectPot(d)) == Chips(d)
  {
    forall i | 0 <= i < |d.players| ensures d.players[i].bet >= 0 && GoodPlayer(d.players[i].(bet := 0), d.currentBet) {
      assert GoodPlayer(d.players[i], d.currentBet);
    }
    CollectingMovesBets(d.players);
  }

  /** An accepted action keeps the table good and its chips constant. */
  lemma ProcessKeepsGood(d: Doc, r: Request)
    requires Good(d) && SoundRequest(r) && Process(d, r).Some?
    ensures Good(Process(d, r).value) && Chips(Process(d, r).value) == Chips(d)
  {
    var i := FindPlayer(d.players, r.user).value;
    var p := d.players[i];
    assert GoodPlayer(p, d.currentBet);
    ApplyKeepsGood(d, i, r);
    var applied := ApplyAction(d, i, r.action, RequiredAmount(r.action, d.currentBet, p.bet, p.chips, r.amount)).value;
    CollectKeepsGood(applied);
  }

  /** A raise names a positive amount. */
  ghost predicate SoundRequest(r: Request) {
    r.action == Raise ==> r.amount > 0
  }

  /** Seat `i` is the first one of the user, and its player can still act. */
  ghost predicate MayAct(d: Doc, user: int, i: nat) {
    && i < |d.players| && d.players[i].userId == user && !d.players[i].hasActed
    && forall j :: 0 <= j < i ==> d.players[j].userId != user
  }

  /** A request is accepted exactly when its player has not acted and has the chips for a call or a raise. In
      particular a folded player is never accepted, although that is checked only on an earlier copy. */
  lemma AcceptedExactlyWhen(d: Doc, r: Request)
    requires Good(d) && SoundRequest(r)
    ensures Process(d, r).Some? <==>
              exists i: nat ::
                && MayAct(d, r.user, i)
                && (r.action == Call ==> d.currentBet - d.players[i].bet <= d.players[i].chips)
                && (r.action == Raise ==> d.currentBet - d.players[i].bet + r.amount <= d.players[i].chips)
    ensures forall i: nat :: MayAct(d, r.user, i) ==> !d.players[i].folded
  {
    var found := FindPlayer(d.players, r.user);
    if found.Some? {
      var i := found.value;
      assert MayAct(d, r.user, i) <==> !d.players[i].hasActed;
      ActionMeansWhatItSays(d, i, r);
    }
    forall i: nat | MayAct(d, r.user, i) ensures found == Some(i) && !d.players[i].folded {
      assert GoodPlayer(d.players[i], d.currentBet);
    }
  }

  ghost predicate AtMostOneLeft(d: Doc) {
    forall j, k :: 0 <= j < k < |d.players| ==> d.players[j].folded || d.players[k].folded
  }

  lemma NoneOrOneLeft(players: seq<PlayerRec>)
    ensures Unfolded(players) == 0 <==> forall j :: 0 <= j < |players| ==> players[j].folded
    ensures Unfolded(players) <= 1 <==>
              forall j, k :: 0 <= j < k < |players| ==> players[j].folded || players[k].folded
  {
    if players != [] {
      NoneOrOneLeft(players[1..]);
      assert forall j :: 1 <= j < |players| ==> players[j] == players[1..][j - 1];
      assert forall j :: 0 <= j < |players[1..]| ==> players[1..][j] == players[j + 1];
    }
  }

  /** What seat `j` has bet when the player on seat `i` has acted, before any bets are collected. */
  function BetAfter(d: Doc, d': Doc, i: nat, j: nat): int
    requires i < |d.players| == |d'.players| && j < |d.players|
  {
    if j == i then d.players[i].bet + d.players[i].chips - d'.players[i].chips else d.players[j].bet
  }

  /** Everybody who has not folded has acted and matched the bet, or has no chips left. */
  ghost predicate AllMatched(d: Doc, d': Doc, i: nat)
    requires i < |d.players| == |d'.players|
  {
    forall j :: 0 <= j < |d'.players| && !d'.players[j].folded ==>
      d'.players[j].hasActed && (BetAfter(d, d', i, j) == d'.currentBet || d'.players[j].chips == 0)
  }

  /** The bets of the street are over with this action. */
  ghost predicate Collects(d: Doc, d': Doc, i: nat, action: Action)
    requires i < |d.players| == |d'.players|
  {
    action in {Call, Raise, AllIn} && (AtMostOneLeft(d') || AllMatched(d, d', i))
  }

  /** Only the player on seat `i` acts: a fold folds and nothing else does, a call matches the bet, a raise tops it by
      its amount, and going all in leaves no chips. */
  ghost predicate ActsAlone(d: Doc, d': Doc, i: nat, r: Request)
    requires i < |d.players| == |d'.players|
  {
    var p, p' := d.players[i], d'.players[i];
    var bet := BetAfter(d, d', i, i);
    && (forall j :: 0 <= j < |d.players| && j != i ==> d'.players[j] == d.players[j].(bet := d'.players[j].bet))
    && p'.userId == p.userId && p'.hasActed && (p'.folded <==> p.folded || r.action == Fold)
    && (r.action in {Fold, Check} ==> p'.chips == p.chips && d'.currentBet == d.currentBet)
    && (r.action == Call ==> bet == d'.currentBet == d.currentBet)
    && (r.action == Raise ==> bet == d'.currentBet == d.currentBet + r.amount)
    && (r.action == AllIn ==> p'.chips == 0 && d'.currentBet == Max(d.currentBet, bet))
  }

  /** Next is the nearest player behind the one who has acted who has not folded, if there is one. */
  ghost predicate TurnPasses(d: Doc, d': Doc) {
    var n, next := |d'.players|, d'.currentIndex;
    if forall j :: 0 <= j < n ==> d'.players[j].folded then next == d.currentIndex
    else
      && 0 <= next < n && !d'.players[next].folded
      && forall j :: 0 <= j < n && !d'.players[j].folded ==>
           Distance(d.currentIndex, next, n) <= Distance(d.currentIndex, j, n)
  }

  lemma ApplyThenCollect(d: Doc, r: Request, i: nat, applied: Doc)
    requires Good(d) && SoundRequest(r) && i < |d.players|
    requires var p := d.players[i];
             var required := RequiredAmount(r.action, d.currentBet, p.bet, p.chips, r.amount);
             ApplyAction(d, i, r.action, required) == Some(applied)
    ensures var d' := if NeedsPotUpdate(r.action, applied) then CollectPot(applied) else applied;
            && |d'.players| == |d.players| && ActsAlone(d, d', i, r)
            && (NeedsPotUpdate(r.action, applied) <==> Collects(d, d', i, r.action))
            && forall j :: 0 <= j < |d.players| ==>
                 d'.players[j].bet == if Collects(d, d', i, r.action) then 0 else BetAfter(d, d', i, j)
  {
    ActionMeansWhatItSays(d, i, r);
    NoneOrOneLeft(applied.players);
    CompleteAlike(d, applied, i, applied);
    var collected := CollectPot(applied);
    CompleteAlike(d, applied, i, collected);
  }

  predicate SameButBet(d: Doc, d': Doc, j: nat)
    requires j < |d.players| == |d'.players|
  {
    d.players[j] == d'.players[j].(bet := d.players[j].bet)
  }

  lemma CollectKeepsThemSame(d: Doc, applied: Doc, i: nat, d': Doc, j: nat)
    requires i < |d.players| == |applied.players| && d' in {applied, CollectPot(applied)} && j < |d.players|
    requires applied.players == d.players[i := applied.players[i]]
    requires applied.players[i].bet == BetAfter(d, applied, i, i)
    ensures |d'.players| == |d.players| && SameButBet(d', applied, j)
    ensures BetAfter(d, d', i, j) == applied.players[j].bet
  {
  }

  /** Collecting bets changes neither who is left nor what everybody had bet. */
  lemma CompleteAlike(d: Doc, applied: Doc, i: nat, d': Doc)
    requires i < |d.players| == |applied.players| && d' in {applied, CollectPot(applied)}
    requires applied.players == d.players[i := applied.players[i]]
    requires applied.players[i].bet == BetAfter(d, applied, i, i)
    ensures |d'.players| == |d.players|
    ensures RoundComplete(applied) <==> AtMostOneLeft(d') || AllMatched(d, d', i)
  {
    NoneOrOneLeft(applied.players);
    forall j | 0 <= j < |d.players|
      ensures SameButBet(d', applied, j) && BetAfter(d, d', i, j) == applied.players[j].bet
    {
      CollectKeepsThemSame(d, applied, i, d', j);
    }
    assert d'.currentBet == applied.currentBet;
  }

  /** The document before the turn passes. */
  lemma ProcessedBeforeTurn(d: Doc, r: Request) returns (i: nat, before: Doc)
    requires Good(d) && SoundRequest(r) && Process(d, r).Some?
    ensures FindPlayer(d.players, r.user) == Some(i) && MayAct(d, r.user, i)
    ensures Process(d, r).value == AdvanceTurn(before) && before.currentIndex == d.currentIndex
    ensures |before.players| == |d.players| && ActsAlone(d, before, i, r)
    ensures forall j :: 0 <= j < |d.players| ==>
              before.players[j].bet == if Collects(d, before, i, r.action) then 0 else BetAfter(d, before, i, j)
    ensures !Collects(d, before, i, r.action) ==> before.pot == d.pot
  {
    i := FindPlayer(d.players, r.user).value;
    var p := d.players[i];
    var applied := ApplyAction(d, i, r.action, RequiredAmount(r.action, d.currentBet, p.bet, p.chips, r.amount)).value;
    ActionMeansWhatItSays(d, i, r);
    ApplyThenCollect(d, r, i, applied);
    before := if NeedsPotUpdate(r.action, applied) then CollectPot(applied) else applied;
  }

  /** What an accepted request makes of the document: the action of its player and of nobody else, the bets collected
      exactly when the street's betting is over with it, and the turn passed on. */
  lemma AcceptedActionMeansWhatItSays(d: Doc, r: Request)
    requires Good(d) && SoundRequest(r) && Process(d, r).Some?
    ensures FindPlayer(d.players, r.user).Some? && |Process(d, r).value.players| == |d.players|
    ensures var d', i := Process(d, r).value, FindPlayer(d.players, r.user).value;
            && MayAct(d, r.user, i) && ActsAlone(d, d', i, r) && TurnPasses(d, d')
            && (forall j :: 0 <= j < |d.players| ==>
                  d'.players[j].bet == if Collects(d, d', i, r.action) then 0 else BetAfter(d, d', i, j))
            && (!Collects(d, d', i, r.action) ==> d'.pot == d.pot)
            && Chips(d') == Chips(d)
  {
    var i, before := ProcessedBeforeTurn(d, r);
    TurnTouchesNobody(d, before, i, r);
    TurnPassesOn(d, before);
    ProcessKeepsGood(d, r);
  }

  lemma TurnTouchesNobody(d: Doc, before: Doc, i: nat, r: Request)
    requires i < |d.players| == |before.players|
    ensures var d' := AdvanceTurn(before);
            && d'.players == before.players && d'.pot == before.pot
            && (ActsAlone(d, d', i, r) <==> ActsAlone(d, before, i, r))
            && (Collects(d, d', i, r.action) <==> Collects(d, before, i, r.action))
            && forall j :: 0 <= j < |d.players| ==> BetAfter(d, d', i, j) == BetAfter(d, before, i, j)
  {
  }

  lemma TurnPassesOn(d: Doc, before: Doc)
    requires before.currentIndex == d.currentIndex
    ensures TurnPasses(d, AdvanceTurn(before))
  {
    TurnPassesToTheNearest(before);
  }

  // ---------------------------------------------------------------------------------------------
  // Many clients and one store
  // ---------------------------------------------------------------------------------------------

  datatype Stored = Stored(doc: Doc, version: int)

  /** `_SAVE_GAME_STATE_LUA` */
  function SaveScript(store: Option<Stored>, payload: Doc, expected: int): (Option<Stored>, bool) {
    var current := if store.Some? then store.value.version else 0;
    if current != expected then (store, false) else (Some(Stored(payload, expected + 1)), true)
  }

  /** The version that `save_game_state` expects to find, from the one written in the document. */
  function OptimisticVersion(version: int): int {
    if version > 0 then version - 1 else 0
  }

  /** The Redis hash of one table. */
  class StateStore {
    var content: Option<Stored>

    method SaveGameState(payload: Doc, version: int) returns (saved: bool)
      modifies this
      ensures (content, saved) == SaveScript(old(content), payload, OptimisticVersion(version))
    {
      var expected := if version > 0 then version - 1 else 0;
      var current := if content.Some? then content.value.version else 0;
      if current != expected {
        return false;
      }
      content := Some(Stored(payload, expected + 1));
      return true;
    }
  }

  /** Where a call of `handle_player_action` stands. */
  datatype Client =
    | Idle
    | Validated(request: Request)                 // step 1 passed on some earlier copy
    | Prepared(request: Request, doc: Doc, version: int)   // the document to save and the version written in it

  /** `log` lists the requests whose save succeeded, in order. */
  datatype System = System(store: Option<Stored>, clients: map<nat, Client>, log: seq<Request>)

  datatype Event = Begin(client: nat, request: Request) | Prepare(client: nat) | Save(client: nat)

  function At(s: System, c: nat): Client {
    if c in s.clients then s.clients[c] else Idle
  }

  /** The system after `e`, or nothing when `e` cannot happen. A refused call leaves its client idle. */
  function Next(s: System, e: Event): Option<System> {
    match e
    case Begin(c, r) =>
      if !At(s, c).Idle? || s.store == None then None
      else
        var found := FindPlayer(s.store.value.doc.players, r.user);
        if found == None || !ValidAction(s.store.value.doc.players[found.value], r.action, r.amount) then Some(s)
        else Some(s.(clients := s.clients[c := Validated(r)]))
    case Prepare(c) =>
      if !At(s, c).Validated? || s.store == None then None
      else
        (match Process(s.store.value.doc, At(s, c).request)
         case None => Some(s.(clients := s.clients[c := Idle]))
         case Some(d) => Some(s.(clients := s.clients[c := Prepared(At(s, c).request, d, s.store.value.version + 1)])))
    case Save(c) =>
      if !At(s, c).Prepared? then None
      else
        var (store, ok) := SaveScript(s.store, At(s, c).doc, OptimisticVersion(At(s, c).version));
        Some(System(store, s.clients[c := Idle], if ok then s.log + [At(s, c).request] else s.log))
  }

  ghost predicate Run(initial: Stored, systems: seq<System>, events: seq<Event>) {
    && |systems| == |events| + 1
    && systems[0] == System(Some(initial), map[], [])
    && forall i :: 0 <= i < |events| ==> Next(systems[i], events[i]) == Some(systems[i + 1])
  }

  /** The requests of `log` one after another, each on the result of the one before. */
  function Replay(d: Doc, log: seq<Request>): Option<Doc> {
    if log == [] then Some(d)
    else
      match Replay(d, log[..|log| - 1])
      case None => None
      case Some(before) => Process(before, log[|log| - 1])
  }

  /** A prepared document is its request's result on the document of the version it was computed from. */
  ghost predicate SoundClient(initial: Stored, s: System, c: Client) {
    match c
    case Idle => true
    case Validated(r) => SoundRequest(r)
    case Prepared(r, d, v) =>
      && SoundRequest(r)
      && initial.version <= v - 1 <= initial.version + |s.log|
      && Replay(initial.doc, s.log[..v - 1 - initial.version]).Some?
      && Process(Replay(initial.doc, s.log[..v - 1 - initial.version]).value, r) == Some(d)
  }

  ghost predicate Inv(initial: Stored, s: System) {
    && s.store.Some?
    && s.store.value.version == initial.version + |s.log|
    && Replay(initial.doc, s.log) == Some(s.store.value.doc)
    && (forall r :: r in s.log ==> SoundRequest(r))
    && (forall c :: c in s.clients ==> SoundClient(initial, s, s.clients[c]))
  }

  lemma LogPrefix(initial: Stored, s: System, s': System, c: Client)
    requires SoundClient(initial, s, c) && s.log <= s'.log
    ensures SoundClient(initial, s', c)
  {
    if c.Prepared? {
      var n := c.version - 1 - initial.version;
      assert s'.log[..n] == s.log[..n];
    }
  }

  lemma SaveKeepsInv(initial: Stored, s: System, c: nat)
    requires initial.version >= 0 && Inv(initial, s) && Next(s, Save(c)).Some?
    ensures Inv(initial, Next(s, Save(c)).value)
  {
    var s' := Next(s, Save(c)).value;
    assert SoundClient(initial, s, s.clients[c]);
    assert s.log[..|s.log|] == s.log;
    if |s'.log| > |s.log| {
      assert s'.log[..|s.log|] == s.log;
    }
    forall k | k in s'.clients ensures SoundClient(initial, s', s'.clients[k]) {
      if k != c {
        LogPrefix(initial, s, s', s.clients[k]);
      }
    }
  }

  lemma PrepareKeepsInv(initial: Stored, s: System, c: nat)
    requires initial.version >= 0 && Inv(initial, s) && Next(s, Prepare(c)).Some?
    ensures Inv(initial, Next(s, Prepare(c)).value)
  {
    var s' := Next(s, Prepare(c)).value;
    assert SoundClient(initial, s, s.clients[c]);
    assert s.log[..|s.log|] == s.log;
    forall k | k in s'.clients ensures SoundClient(initial, s', s'.clients[k]) {
      if k != c {
        LogPrefix(initial, s, s', s.clients[k]);
      }
    }
  }

  lemma StepKeepsInv(initial: Stored, s: System, e: Event)
    requires initial.version >= 0 && Inv(initial, s) && Next(s, e).Some?
    ensures Inv(initial, Next(s, e).value)
  {
    match e
    case Begin(c, r) =>
      var s' := Next(s, e).value;
      forall k | k in s'.clients ensures SoundClient(initial, s', s'.clients[k]) {
        if k in s.clients {
          LogPrefix(initial, s, s', s.clients[k]);
        }
      }
    case Prepare(c) => PrepareKeepsInv(initial, s, c);
    case Save(c) => SaveKeepsInv(initial, s, c);
  }

  lemma {:induction false} RunKeepsInv(initial: Stored, systems: seq<System>, events: seq<Event>, n: nat)
    requires initial.version >= 0 && Run(initial, systems, events) && n < |systems|
    ensures Inv(initial, systems[n])
  {
    if n > 0 {
      RunKeepsInv(initial, systems, events, n - 1);
      assert Next(systems[n - 1], events[n - 1]) == Some(systems[n - 1 + 1]);
      StepKeepsInv(initial, systems[n - 1], events[n - 1]);
    }
  }

  /** Serialisability: however the clients interleave, the stored document is that of the successful
      requests alone, one after another in the order of their versions; no update is lost. */
  lemma ActionsAreSerialisable(initial: Stored, systems: seq<System>, events: seq<Event>, n: nat)
    requires initial.version >= 0 && Run(initial, systems, events) && n < |systems|
    ensures var s := systems[n];
            && s.store.Some?
            && s.store.value.version == initial.version + |s.log|
            && Replay(initial.doc, s.log) == Some(s.store.value.doc)
  {
    RunKeepsInv(initial, systems, events, n);
  }

  lemma ReplayKeepsGood(d: Doc, log: seq<Request>)
    requires Good(d) && (forall r :: r in log ==> SoundRequest(r)) && Replay(d, log).Some?
    ensures Good(Replay(d, log).value) && Chips(Replay(d, log).value) == Chips(d)
  {
    if log != [] {
      ReplayKeepsGood(d, log[..|log| - 1]);
      assert SoundRequest(log[|log| - 1]);
      ProcessKeepsGood(Replay(d, log[..|log| - 1]).value, log[|log| - 1]);
    }
  }

  /** Every stored document of every run is good and holds the chips of the first. */
  lemma StoredTablesStayGood(initial: Stored, systems: seq<System>, events: seq<Event>, n: nat)
    requires initial.version >= 0 && Run(initial, systems, events) && n < |systems| && Good(initial.doc)
    ensures systems[n].store.Some?
    ensures Good(systems[n].store.value.doc) && Chips(systems[n].store.value.doc) == Chips(initial.doc)
  {
    RunKeepsInv(initial, systems, events, n);
    ReplayKeepsGood(initial.doc, systems[n].log);
  }

  /** The check before the locks: it lets through exactly the requests of seated players who have not folded, with a
      positive amount for a raise. */
  lemma BeginAdmitsExactlyWhen(s: System, c: nat, r: Request)
    requires s.store.Some? && At(s, c).Idle?
    ensures Next(s, Begin(c, r)).Some? && Next(s, Begin(c, r)).value.store == s.store
    ensures At(Next(s, Begin(c, r)).value, c) == Validated(r) <==>
              SoundRequest(r) && exists i: nat :: Admits(s.store.value.doc.players, r.user, i)
  {
    var players := s.store.value.doc.players;
    var found := FindPlayer(players, r.user);
    if found.Some? {
      assert Admits(players, r.user, found.value) <==> !players[found.value].folded;
      forall i: nat | Admits(players, r.user, i) ensures i == found.value {
      }
    }
  }

  ghost predicate Admits(players: seq<PlayerRec>, user: int, i: nat) {
    && i < |players| && players[i].userId == user && !players[i].folded
    && forall j :: 0 <= j < i ==> players[j].userId != user
  }

  /** A save is accepted exactly when its document carries the version after the stored one (none counts as 0), or none
      and nothing is stored under a version; what is stored then has the version of the document, from 1 on. */
  lemma SaveNumbersTheVersions(store: Option<Stored>, doc: Doc, version: int)
    ensures var (store', ok) := SaveScript(store, doc, OptimisticVersion(version));
            var before := match store case None => 0 case Some(st) => st.version;
            && (ok <==> if version > 0 then version == before + 1 else before == 0)
            && store' == if ok then Some(Stored(doc, if version > 0 then version else 1)) else store
  {
  }

  /** A request of an idle client that nobody disturbs is served: admitted, prepared and saved as the next version if it
      is acceptable, and refused without a trace otherwise. */
  lemma UndisturbedRequestIsServed(s: System, c: nat, r: Request)
    requires s.store.Some? && s.store.value.version >= 0 && At(s, c).Idle?
    ensures Next(s, Begin(c, r)).Some?
    ensures var s1 := Next(s, Begin(c, r)).value;
            if At(s1, c) != Validated(r) then s1 == s
            else
              && Next(s1, Prepare(c)).Some?
              && var s2 := Next(s1, Prepare(c)).value;
                 match Process(s.store.value.doc, r)
                 case None => At(s2, c).Idle? && s2.store == s.store && s2.log == s.log
                 case Some(d) =>
                   && Next(s2, Save(c)).Some?
                   && var s3 := Next(s2, Save(c)).value;
                      && At(s3, c).Idle? && s3.log == s.log + [r]
                      && s3.store == Some(Stored(d, s.store.value.version + 1))
  {
  }

  /** No step of client `c` among the events from `i` up to `j`. */
  ghost predicate Pauses(events: seq<Event>, c: nat, i: nat, j: nat) {
    forall k :: i <= k < j && k < |events| ==> events[k].client != c
  }

  lemma {:induction false} WaitsPrepared(initial: Stored, systems: seq<System>, events: seq<Event>,
                                         c: nat, i: nat, j: nat)
    requires Run(initial, systems, events) && i <= j < |systems| && Pauses(events, c, i, j)
    ensures At(systems[j], c) == At(systems[i], c) && |systems[i].log| <= |systems[j].log|
  {
    if i < j {
      WaitsPrepared(initial, systems, events, c, i, j - 1);
      assert events[j - 1].client != c;
      assert Next(systems[j - 1], events[j - 1]) == Some(systems[j - 1 + 1]);
    }
  }

  /** A save succeeds exactly when no other save has succeeded since its document was loaded. */
  lemma SaveSucceedsExactlyWhenNobodyElseSaved(initial: Stored, systems: seq<System>, events: seq<Event>,
                                               c: nat, i: nat, j: nat)
    requires initial.version >= 0 && Run(initial, systems, events) && i < j < |events|
    requires events[i] == Prepare(c) && At(systems[i + 1], c).Prepared? && events[j] == Save(c)
    requires Pauses(events, c, i + 1, j)
    ensures |systems[j + 1].log| > |systems[j].log| <==> |systems[j].log| == |systems[i].log|
    ensures |systems[j].log| == |systems[i].log| ==>
              systems[i].store.Some? && systems[j + 1].store.Some?
              && Process(systems[i].store.value.doc, At(systems[i], c).request) == Some(systems[j + 1].store.value.doc)
  {
    RunKeepsInv(initial, systems, events, i);
    RunKeepsInv(initial, systems, events, j);
    assert Next(systems[i], events[i]) == Some(systems[i + 1]);
    assert Next(systems[j], events[j]) == Some(systems[j + 1]);
    WaitsPrepared(initial, systems, events, c, i + 1, j);
  }
}
