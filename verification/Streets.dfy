/** The streets of a hand and the deck (pokerapp/matchmaking_service.py, `progress_stage` and its helpers). */
module Streets {
  import opened Basics

  type Card = string

  datatype Street = Initial | PreFlop | Flop | Turn | River | Finished

  datatype PlayerState = Active | AllIn | Folded

  datatype Player = Player(state: PlayerState, roundRate: nat, hasActed: bool, cards: seq<Card>)

  type Seats = seq<Option<Player>>

  /** What a call of `finalize_game` finds on the table. */
  datatype Showdown = Showdown(contenders: nat, board: seq<Card>)

  /** A hand as a value; `shown` lists the calls of `finalize_game`. */
  datatype Hand = Hand(seats: Seats, street: Street, board: seq<Card>, remain: seq<Card>,
                       dealer: int, turn: int, shown: seq<Showdown>)

  // ---------------------------------------------------------------------------------------------
  // Specification
  // ---------------------------------------------------------------------------------------------

  /** `Game.players`: the occupied seats in order. */
  function Players(seats: Seats): seq<Player> {
    if seats == [] then []
    else (if seats[0].Some? then [seats[0].value] else []) + Players(seats[1..])
  }

  function Count(players: seq<Player>, states: set<PlayerState>): nat {
    if players == [] then 0 else (if players[0].state in states then 1 else 0) + Count(players[1..], states)
  }

  function Contenders(seats: Seats): nat {
    Count(Players(seats), {Active, AllIn})
  }

  function ActiveCount(seats: Seats): nat {
    Count(Players(seats), {Active})
  }

  /** The stage transitions: the next street and the number of cards it shows. */
  function Transition(street: Street): Option<(Street, nat)> {
    match street
    case PreFlop => Some((Flop, 3))
    case Flop => Some((Turn, 1))
    case Turn => Some((River, 1))
    case _ => None
  }

  function StreetsLeft(street: Street): nat {
    match street
    case PreFlop => 3
    case Flop => 2
    case Turn => 1
    case _ => 0
  }

  /** Board and deck after showing `n` more cards from the end of the deck, as far as there are any. */
  function Show(board: seq<Card>, remain: seq<Card>, n: nat): (seq<Card>, seq<Card>)
    decreases |remain|
  {
    if n == 0 || remain == [] then (board, remain)
    else Show(board + [remain[|remain| - 1]], remain[..|remain| - 1], n - 1)
  }

  /** `collect_bets_for_pot` and the clearing of `has_acted`. */
  function NewRound(seats: Seats): (r: Seats)
    ensures |r| == |seats|
  {
    if seats == [] then [] else [Rested(seats[0])] + NewRound(seats[1..])
  }

  function Rested(seat: Option<Player>): Option<Player> {
    if seat == None then None else Some(seat.value.(roundRate := 0, hasActed := false))
  }

  /** `_find_next_active_player_index`, from the given offset on. */
  function NextActive(players: seq<Player>, start: int, offset: nat): int
    decreases |players| - offset
  {
    if offset > |players| || players == [] then -1
    else
      var next := (start + offset) % |players|;
      if players[next].state == Active then next else NextActive(players, start, offset + 1)
  }

  /** The call of `finalize_game` and the end of the stage. */
  function Finalise(h: Hand): Hand {
    h.(shown := h.shown + [Showdown(Contenders(h.seats), h.board)], turn := -1)
  }

  /** One street further; the transition is known to exist. */
  function NextStreet(h: Hand): Hand
    requires Transition(h.street).Some?
  {
    var (street, n) := Transition(h.street).value;
    var (board, remain) := Show(h.board, h.remain, n);
    h.(seats := NewRound(h.seats), street := street, board := board, remain := remain)
  }

  /** The loop of `progress_stage`: streets are shown until somebody can bet. */
  function Loop(h: Hand): (Hand, bool)
    decreases StreetsLeft(h.street)
  {
    if Transition(h.street) == None then
      var rested := h.(seats := NewRound(h.seats));
      (if h.street == River then Finalise(rested) else rested.(turn := -1), false)
    else
      var h' := NextStreet(h);
      if ActiveCount(h'.seats) > 0 then (h'.(turn := NextActive(Players(h'.seats), h'.dealer, 1)), true)
      else if h'.street == River then (Finalise(h'), false)
      else Loop(h')
  }

  /** `progress_stage` */
  function Progress(h: Hand): (Hand, bool) {
    if Contenders(h.seats) <= 1 then (Finalise(h), false) else Loop(h)
  }

  // ---------------------------------------------------------------------------------------------
  // Whose turn it is
  // ---------------------------------------------------------------------------------------------

  lemma CountIsPositive(players: seq<Player>, states: set<PlayerState>)
    ensures Count(players, states) > 0 <==> exists i :: 0 <= i < |players| && players[i].state in states
  {
    if players != [] {
      CountIsPositive(players[1..], states);
      if i :| 0 <= i < |players[1..]| && players[1..][i].state in states {
        assert players[i + 1].state in states;
      }
      if i :| 0 <= i < |players| && players[i].state in states {
        assert i == 0 || players[1..][i - 1].state in states;
      }
    }
  }

  lemma {:induction false} NextActiveFrom(players: seq<Player>, start: int, offset: nat, i: nat)
    requires offset >= 1 && i < |players| && players[i].state == Active && Distance(start, i, |players|) >= offset
    ensures var r := NextActive(players, start, offset);
            && 0 <= r < |players| && players[r].state == Active
            && offset <= Distance(start, r, |players|) <= Distance(start, i, |players|)
    decreases |players| - offset
  {
    var next := (start + offset) % |players|;
    if players[next].state != Active {
      NextActiveFrom(players, start, offset + 1, i);
    } else {
      DistanceOf(start, offset, |players|);
    }
  }

  /** The search finds the first player still to act after `start`, and finds one exactly when there is one. */
  lemma NextActiveIsNearest(players: seq<Player>, start: int)
    ensures var r := NextActive(players, start, 1);
            && (r == -1 <==> Count(players, {Active}) == 0)
            && (r != -1 ==>
                  && 0 <= r < |players| && players[r].state == Active
                  && forall i :: 0 <= i < |players| && players[i].state == Active ==>
                       Distance(start, r, |players|) <= Distance(start, i, |players|))
  {
    CountIsPositive(players, {Active});
    forall i | 0 <= i < |players| && players[i].state == Active
      ensures var r := NextActive(players, start, 1);
              && 0 <= r < |players| && players[r].state == Active
              && Distance(start, r, |players|) <= Distance(start, i, |players|)
    {
      NextActiveFrom(players, start, 1, i);
    }
    if NextActive(players, start, 1) != -1 {
      NextActiveIsActive(players, start, 1);
    }
  }

  lemma SomebodyIsNext(players: seq<Player>, start: int)
    requires Count(players, {Active}) != 0
    ensures NextActive(players, start, 1) != -1
  {
    NextActiveIsNearest(players, start);
  }

  lemma NextActiveIsActive(players: seq<Player>, start: int, offset: nat)
    requires NextActive(players, start, offset) != -1
    ensures var r := NextActive(players, start, offset); 0 <= r < |players| && players[r].state == Active
    decreases |players| - offset
  {
  }

  /** No empty seat before an occupied one. */
  ghost predicate Packed(seats: Seats) {
    forall i, j :: 0 <= i < j < |seats| && seats[j].Some? ==> seats[i].Some?
  }

  lemma PlayersOfPacked(seats: Seats)
    requires Packed(seats)
    ensures |Players(seats)| <= |seats|
    ensures forall i :: 0 <= i < |Players(seats)| ==> seats[i] == Some(Players(seats)[i])
  {
    if seats != [] {
      PlayersOfPacked(seats[1..]);
      if seats[0] == None {
        EmptySeats(seats);
      } else {
        forall i | 0 <= i < |Players(seats)| ensures seats[i] == Some(Players(seats)[i]) {
          assert i == 0 || seats[1..][i - 1] == Some(Players(seats[1..])[i - 1]);
        }
      }
    }
  }

  lemma EmptySeats(seats: Seats)
    requires forall i :: 0 <= i < |seats| ==> seats[i] == None
    ensures Players(seats) == []
  {
  }

  lemma PlayersFillTheFront(seats: Seats)
    requires |Players(seats)| <= |seats| && forall i :: 0 <= i < |Players(seats)| ==> seats[i].Some?
    ensures Packed(seats)
  {
    if seats != [] {
      AtMostSeats(seats[1..]);
      if seats[0].Some? {
        assert forall i :: 0 <= i < |Players(seats[1..])| ==> seats[1..][i] == seats[i + 1];
        PlayersFillTheFront(seats[1..]);
        assert forall j :: 0 < j < |seats| ==> seats[j] == seats[1..][j - 1];
      } else {
        NobodySits(seats);
      }
    }
  }

  lemma NobodySits(seats: Seats)
    requires Players(seats) == []
    ensures forall i :: 0 <= i < |seats| ==> seats[i] == None
  {
    if seats != [] {
      NobodySits(seats[1..]);
      assert forall j :: 0 < j < |seats| ==> seats[j] == seats[1..][j - 1];
    }
  }

  lemma AtMostSeats(seats: Seats)
    ensures |Players(seats)| <= |seats|
  {
  }

  /** The turn, looked up among the seats, is with the player who can bet and sits nearest behind the dealer. */
  ghost predicate TurnIsRight(seats: Seats, dealer: nat, turn: int)
    requires dealer < |seats|
  {
    && CanBetAt(seats, turn)
    && forall j :: CanBetAt(seats, j) ==> Distance(dealer, turn, |seats|) <= Distance(dealer, j, |seats|)
  }

  predicate CanBetAt(seats: Seats, seat: int) {
    0 <= seat < |seats| && seats[seat].Some? && seats[seat].value.state == Active
  }

  /** The turn is counted among the players but looked up among the seats. For every dealer who sits at the table and
      every distribution of states that agrees exactly when the players sit on the first seats without a gap. */
  lemma TurnIsRightExactlyWhenPacked(seats: Seats)
    requires Players(seats) != []
    ensures Packed(seats) <==>
            forall s: Seats, dealer: nat ::
              SamePlaces(seats, s) && ActiveCount(s) > 0 && dealer < |s| && s[dealer].Some? ==>
              TurnIsRight(s, dealer, NextActive(Players(s), dealer, 1))
  {
    if Packed(seats) {
      forall s: Seats, dealer: nat | SamePlaces(seats, s) && ActiveCount(s) > 0 && dealer < |s| && s[dealer].Some?
        ensures TurnIsRight(s, dealer, NextActive(Players(s), dealer, 1))
      {
        assert Packed(s);
        PackedTurnIsRight(s, dealer);
      }
    } else {
      GapMisleads(seats);
    }
  }

  lemma DistanceIs(start: nat, i: nat, n: nat)
    requires start < n && i < n
    ensures Distance(start, i, n) == if i > start then i - start else i - start + n
  {
    var k := if i > start then i - start else i - start + n;
    RemainderIs(n, start + k, if i > start then 0 else 1, i);
    DistanceOf(start, k, n);
  }

  /** Empty seats behind the players do not change who is nearer. */
  lemma PackedTurnIsRight(seats: Seats, dealer: nat)
    requires Packed(seats) && ActiveCount(seats) > 0 && dealer < |seats| && seats[dealer].Some?
    ensures TurnIsRight(seats, dealer, NextActive(Players(seats), dealer, 1))
  {
    var players := Players(seats);
    PlayersOfPacked(seats);
    NextActiveIsNearest(players, dealer);
    OccupiedAreFirst(seats, dealer);
    var turn := NextActive(players, dealer, 1);
    DistanceIs(dealer, turn, |players|);
    DistanceIs(dealer, turn, |seats|);
    forall j | CanBetAt(seats, j) ensures Distance(dealer, turn, |seats|) <= Distance(dealer, j, |seats|) {
      OccupiedAreFirst(seats, j);
      DistanceIs(dealer, j, |players|);
      DistanceIs(dealer, j, |seats|);
      assert players[j].state == Active;
    }
  }

  lemma OccupiedAreFirst(seats: Seats, seat: nat)
    requires Packed(seats) && seat < |seats| && seats[seat].Some?
    ensures seat < |Players(seats)|
  {
    if seat > 0 {
      assert seats[0].Some? && seats[1..][seat - 1] == seats[seat];
      OccupiedAreFirst(seats[1..], seat - 1);
    }
  }

  ghost predicate SamePlaces(seats: Seats, s: Seats) {
    |s| == |seats| && forall i :: 0 <= i < |s| ==> (s[i].Some? <==> seats[i].Some?)
  }

  /** Everybody has folded but the player of the given rank. */
  function OnlyOneLeft(seats: Seats, rank: int): Seats {
    if seats == [] then []
    else if seats[0] == None then [None] + OnlyOneLeft(seats[1..], rank)
    else [Some(seats[0].value.(state := if rank == 0 then Active else Folded))] + OnlyOneLeft(seats[1..], rank - 1)
  }

  lemma {:induction false} OnlyOneLeftKeepsPlaces(seats: Seats, rank: int)
    ensures SamePlaces(seats, OnlyOneLeft(seats, rank))
  {
    if seats != [] {
      var rest, next := seats[1..], if seats[0] == None then rank else rank - 1;
      OnlyOneLeftKeepsPlaces(rest, next);
      forall i | 0 <= i < |seats| ensures OnlyOneLeft(seats, rank)[i].Some? <==> seats[i].Some? {
        assert i > 0 ==> seats[i] == rest[i - 1] && OnlyOneLeft(seats, rank)[i] == OnlyOneLeft(rest, next)[i - 1];
      }
    }
  }

  lemma {:induction false} OnlyOneCanAct(seats: Seats, rank: int)
    ensures |Players(OnlyOneLeft(seats, rank))| == |Players(seats)|
    ensures forall i :: 0 <= i < |Players(OnlyOneLeft(seats, rank))| ==>
              (Players(OnlyOneLeft(seats, rank))[i].state == Active <==> i == rank)
  {
    if seats != [] {
      var next := if seats[0] == None then rank else rank - 1;
      OnlyOneCanAct(seats[1..], next);
      assert OnlyOneLeft(seats, rank)[1..] == OnlyOneLeft(seats[1..], next);
    }
  }

  /** Behind an empty seat, with only the player left who is counted to it, the turn goes to the empty seat, whoever
      has the button. */
  lemma GapMisleads(seats: Seats)
    requires Players(seats) != [] && !Packed(seats)
    ensures exists s: Seats :: SamePlaces(seats, s) && ActiveCount(s) > 0 &&
              (forall dealer: nat :: dealer < |s| ==> !TurnIsRight(s, dealer, NextActive(Players(s), dealer, 1)))
    ensures exists dealer: nat :: dealer < |seats| && seats[dealer].Some?
  {
    var gap := FindGap(seats);
    var s := OnlyOneLeft(seats, gap);
    OnlyOneLeftKeepsPlaces(seats, gap);
    OnlyOneCanAct(seats, gap);
    var players := Players(s);
    assert players[gap].state in {Active};
    CountIsPositive(players, {Active});
    forall dealer: nat | dealer < |s| ensures !TurnIsRight(s, dealer, NextActive(players, dealer, 1)) {
      NextActiveIsNearest(players, dealer);
      assert NextActive(players, dealer, 1) == gap && s[gap] == None;
    }
    if forall dealer: nat :: dealer < |seats| ==> seats[dealer] == None {
      EmptySeats(seats);
    }
  }

  lemma FindGap(seats: Seats) returns (gap: nat)
    requires !Packed(seats)
    ensures gap < |Players(seats)| <= |seats| && seats[gap] == None
  {
    AtMostSeats(seats);
    if forall i :: 0 <= i < |Players(seats)| ==> seats[i].Some? {
      PlayersFillTheFront(seats);
    }
    gap :| 0 <= gap < |Players(seats)| && seats[gap] == None;
  }

  /** A seat with the two last cards of the deck. */
  function DealtSeat(seat: Option<Player>, deck: seq<Card>): Option<Player>
    requires seat.Some? && |deck| >= 2
  {
    Some(seat.value.(cards := [deck[|deck| - 1], deck[|deck| - 2]]))
  }

  /** The seat and the deck after a seat's turn in the deal; `spare` is the deck drawn if the cards run out. */
  function AfterSeat(seat: Option<Player>, remain: seq<Card>, spare: seq<Card>): (r: (Option<Player>, seq<Card>))
    requires |spare| >= 2
  {
    if seat == None then (None, remain)
    else
      var deck := if |remain| < 2 then spare else remain;
      (DealtSeat(seat, deck), deck[..|deck| - 2])
  }

  /** `_divide_cards`; `decks[i]` is the deck drawn if the cards run out at seat `i`. */
  function Divide(seats: Seats, remain: seq<Card>, decks: seq<seq<Card>>): (Seats, seq<Card>)
    requires |decks| == |seats| && forall d :: d in decks ==> |d| >= 2
  {
    if seats == [] then ([], remain)
    else
      var (seat, deck) := AfterSeat(seats[0], remain, decks[0]);
      var (rest, left) := Divide(seats[1..], deck, decks[1..]);
      ([seat] + rest, left)
  }

  /** The same deal on the seats in place, from seat `i` on. */
  function DivideFrom(seats: Seats, i: nat, remain: seq<Card>, decks: seq<seq<Card>>): (Seats, seq<Card>)
    requires i <= |seats| == |decks| && forall d :: d in decks ==> |d| >= 2
    decreases |seats| - i
  {
    if i == |seats| then (seats, remain)
    else
      var (seat, deck) := AfterSeat(seats[i], remain, decks[i]);
      DivideFrom(seats[i := seat], i + 1, deck, decks)
  }

  lemma {:induction false} DivideInPlace(seats: Seats, i: nat, remain: seq<Card>, decks: seq<seq<Card>>)
    requires i <= |seats| == |decks| && forall d :: d in decks ==> |d| >= 2
    ensures DivideFrom(seats, i, remain, decks).0 == seats[..i] + Divide(seats[i..], remain, decks[i..]).0
    ensures DivideFrom(seats, i, remain, decks).1 == Divide(seats[i..], remain, decks[i..]).1
    decreases |seats| - i
  {
    if i < |seats| {
      var (seat, deck) := AfterSeat(seats[i], remain, decks[i]);
      DivideInPlace(seats[i := seat], i + 1, deck, decks);
      assert seats[i..][1..] == seats[i + 1..] == seats[i := seat][i + 1..];
      assert decks[i..][1..] == decks[i + 1..];
      var rest := Divide(seats[i + 1..], deck, decks[i + 1..]).0;
      assert seats[i := seat][..i + 1] + rest == seats[..i] + ([seat] + rest);
    }
  }

  // ---------------------------------------------------------------------------------------------
  // The game object
  // ---------------------------------------------------------------------------------------------

  class Game {
    var seats: Seats
    var street: Street
    var board: seq<Card>
    var remain: seq<Card>
    var dealer: int
    var turn: int
    ghost var shown: seq<Showdown>

    ghost function View(): Hand
      reads this
    {
      Hand(seats, street, board, remain, dealer, turn, shown)
    }

    /** Stands for the callback; only that it is called, and on what, matters here. */
    method FinaliseGame()
      modifies this`shown
      ensures shown == old(shown) + [Showdown(Contenders(seats), board)]
    {
      shown := shown + [Showdown(Contenders(seats), board)];
    }

    method CollectBetsForPot()
      modifies this`seats
      ensures seats == NewRound(old(seats))
    {
      for i := 0 to |seats|
        invariant |seats| == |old(seats)| && seats[i..] == old(seats)[i..]
        invariant NewRound(old(seats)) == seats[..i] + NewRound(seats[i..])
      {
        ghost var before := seats;
        assert seats[i..][1..] == seats[i + 1..];
        if seats[i].Some? {
          seats := seats[i := Some(seats[i].value.(roundRate := 0, hasActed := false))];
        }
        assert seats[i + 1..] == before[i + 1..] && seats[..i + 1] == before[..i] + [seats[i]];
      }
    }

    method AddCardsToTable(count: nat)
      modifies this`board, this`remain
      ensures (board, remain) == Show(old(board), old(remain), count)
    {
      for i := 0 to count
        invariant Show(board, remain, count - i) == Show(old(board), old(remain), count)
      {
        if remain != [] {
          board, remain := board + [remain[|remain| - 1]], remain[..|remain| - 1];
        }
      }
    }

    method FindNextActivePlayerIndex(start: int) returns (index: int)
      ensures index == NextActive(Players(seats), start, 1)
    {
      var players := Players(seats);
      for i := 1 to |players| + 1
        invariant NextActive(players, start, i) == NextActive(players, start, 1)
      {
        var next := (start + i) % |players|;
        if players[next].state == Active {
          return next;
        }
      }
      return -1;
    }

    method ProgressStage() returns (goesOn: bool)
      modifies this
      ensures View() == Progress(old(View())).0 && goesOn == Progress(old(View())).1
    {
      if Count(Players(seats), {Active, AllIn}) <= 1 {
        FinaliseGame();
        turn := -1;
        return false;
      }
      while true
        invariant Loop(View()) == Loop(old(View()))
        decreases StreetsLeft(street)
      {
        ghost var was := View();
        CollectBetsForPot();
        var transition := Transition(street);
        if transition.Some? {
          street := transition.value.0;
          AddCardsToTable(transition.value.1);
          assert View() == NextStreet(was);
        } else if street == River {
          FinaliseGame();
          turn := -1;
          return false;
        } else {
          turn := -1;
          return false;
        }
        if Count(Players(seats), {Active}) == 0 {
          if street == River {
            FinaliseGame();
            turn := -1;
            return false;
          }
          continue;
        }
        turn := FindNextActivePlayerIndex(dealer);
        SomebodyIsNext(Players(seats), dealer);
        assert turn != -1;   // so the branch for a missing player is dead
        return true;
      }
    }

    method DealTo(i: nat, spare: seq<Card>)
      requires i < |seats| && seats[i].Some? && |spare| >= 2
      modifies this`seats, this`remain
      ensures var deck := if |old(remain)| < 2 then spare else old(remain);
              && remain == deck[..|deck| - 2]
              && seats == old(seats)[i := DealtSeat(old(seats)[i], deck)]
    {
      if |remain| < 2 {
        remain := spare;
      }
      var cards := [remain[|remain| - 1], remain[|remain| - 2]];
      remain := remain[..|remain| - 2];
      seats := seats[i := Some(seats[i].value.(cards := cards))];
    }

    method DivideCards(decks: seq<seq<Card>>)
      requires |decks| == |seats| && forall d :: d in decks ==> |d| >= 2
      modifies this`seats, this`remain
      ensures seats == Divide(old(seats), old(remain), decks).0
      ensures remain == Divide(old(seats), old(remain), decks).1
    {
      for i := 0 to |seats|
        invariant |seats| == |decks|
        invariant DivideFrom(seats, i, remain, decks) == DivideFrom(old(seats), 0, old(remain), decks)
      {
        assert seats[i := seats[i]] == seats;
        if seats[i].Some? {
          DealTo(i, decks[i]);
        }
      }
      DivideInPlace(old(seats), 0, old(remain), decks);
      assert old(seats)[0..] == old(seats) && decks[0..] == decks;
      assert old(seats)[..0] == [];
    }
  }

  // ---------------------------------------------------------------------------------------------
  // The street machine
  // ---------------------------------------------------------------------------------------------

  function Rank(street: Street): nat {
    match street
    case Initial => 0
    case PreFlop => 1
    case Flop => 2
    case Turn => 3
    case River => 4
    case Finished => 5
  }

  predicate InRound(street: Street) {
    1 <= Rank(street) <= 4
  }

  /** How many community cards belong to a street. */
  function BoardSize(street: Street): nat {
    match street
    case Flop => 3
    case Turn => 4
    case River => 5
    case Finished => 5
    case _ => 0
  }

  /** A new round clears every player's bet and mark and nothing else. */
  lemma {:induction false} NewRoundClears(seats: Seats, i: nat)
    requires i < |seats|
    ensures NewRound(seats)[i].Some? <==> seats[i].Some?
    ensures seats[i].Some? ==> NewRound(seats)[i].value == seats[i].value.(roundRate := 0, hasActed := false)
  {
    if i > 0 {
      NewRoundClears(seats[1..], i - 1);
    }
  }

  lemma NewRoundKeepsStates(seats: Seats, states: set<PlayerState>)
    ensures Count(Players(NewRound(seats)), states) == Count(Players(seats), states)
  {
    if seats != [] {
      assert NewRound(seats)[1..] == NewRound(seats[1..]);
      NewRoundKeepsStates(seats[1..], states);
      if seats[0].Some? {
        CountFirst(seats[0].value, Players(seats[1..]), states);
        CountFirst(Rested(seats[0]).value, Players(NewRound(seats[1..])), states);
        assert Players(NewRound(seats)) == [Rested(seats[0]).value] + Players(NewRound(seats[1..]));
      } else {
        assert Players(seats) == Players(seats[1..]);
        assert Players(NewRound(seats)) == Players(NewRound(seats[1..]));
      }
    }
  }

  lemma CountFirst(p: Player, rest: seq<Player>, states: set<PlayerState>)
    ensures Count([p] + rest, states) == (if p.state in states then 1 else 0) + Count(rest, states)
  {
    assert ([p] + rest)[1..] == rest;
  }

  lemma {:induction false} ShowCounts(board: seq<Card>, remain: seq<Card>, n: nat)
    ensures var (b, r) := Show(board, remain, n);
            && board <= b && |b| + |r| == |board| + |remain|
            && |b| == |board| + (if n <= |remain| then n else |remain|)
            && multiset(b) + multiset(r) == multiset(board) + multiset(remain)
    decreases |remain|
  {
    if n > 0 && remain != [] {
      var last := remain[|remain| - 1];
      ShowCounts(board + [last], remain[..|remain| - 1], n - 1);
      assert remain == remain[..|remain| - 1] + [last];
    }
  }

  /** What the loop started in `h` may end with. */
  ghost predicate LoopEnds(h: Hand, h': Hand, goesOn: bool) {
    if InRound(h.street) && h.street != River && ActiveCount(h.seats) > 0 then
      && goesOn && Rank(h'.street) == Rank(h.street) + 1
      && h'.shown == h.shown && h'.turn != -1 && h'.seats == NewRound(h.seats)
      && h'.turn == NextActive(Players(h'.seats), h.dealer, 1)
    else
      && !goesOn && h'.turn == -1
      && h'.street == (if InRound(h.street) then River else h.street)
      && h'.shown == h.shown + (if InRound(h.street) then [Showdown(Contenders(h.seats), h'.board)] else [])
  }

  /** `h'` is a street later than `h` with the same players in the same states. */
  ghost predicate StreetLater(h: Hand, h': Hand) {
    && InRound(h.street) && h.street != River && InRound(h'.street)
    && Rank(h'.street) == Rank(h.street) + 1
    && h'.shown == h.shown
    && Contenders(h'.seats) == Contenders(h.seats)
    && ActiveCount(h'.seats) == ActiveCount(h.seats)
  }

  lemma NextStreetIsLater(h: Hand)
    requires Transition(h.street).Some?
    ensures StreetLater(h, NextStreet(h))
  {
    NewRoundKeepsStates(h.seats, {Active});
    NewRoundKeepsStates(h.seats, {Active, AllIn});
  }

  lemma RunOutOneStreet(h: Hand, later: Hand, h': Hand, goesOn: bool)
    requires StreetLater(h, later) && ActiveCount(h.seats) == 0 && LoopEnds(later, h', goesOn)
    ensures LoopEnds(h, h', goesOn)
  {
  }

  /** With nobody able to bet, the remaining streets are all shown. */
  lemma {:induction false} LoopOutcome(h: Hand)
    ensures LoopEnds(h, Loop(h).0, Loop(h).1)
    decreases StreetsLeft(h.street)
  {
    if Transition(h.street) == None {
      NewRoundKeepsStates(h.seats, {Active, AllIn});
    } else {
      NextStreetIsLater(h);
      var h' := NextStreet(h);
      if ActiveCount(h'.seats) > 0 {
        SomebodyIsNext(Players(h'.seats), h'.dealer);
      } else if h'.street != River {
        LoopOutcome(h');
        RunOutOneStreet(h, h', Loop(h).0, Loop(h).1);
      }
    }
  }

  /** The outcome of `progress_stage`: the betting goes on exactly when two contenders remain, somebody
      can bet and a street is left, and then on the next street without a showdown. Otherwise the hand is
      finalised exactly once, at the river unless only one contender is left. Outside a round it does
      nothing but drop the turn. */
  lemma StreetMachine(h: Hand)
    ensures var (h', goesOn) := Progress(h);
            && (goesOn <==>
                  Contenders(h.seats) >= 2 && ActiveCount(h.seats) > 0 && InRound(h.street) && h.street != River)
            && (goesOn ==>
                  && Rank(h'.street) == Rank(h.street) + 1 && h'.shown == h.shown
                  && h'.seats == NewRound(h.seats)
                  && h'.turn == NextActive(Players(h'.seats), h.dealer, 1) != -1)
            && (!goesOn ==> h'.turn == -1)
            && (!goesOn && (InRound(h.street) || Contenders(h.seats) <= 1) ==>
                  h'.shown == h.shown + [Showdown(Contenders(h.seats), h'.board)])
            && (!goesOn && Contenders(h.seats) >= 2 && InRound(h.street) ==> h'.street == River)
            && (!goesOn && Contenders(h.seats) >= 2 && !InRound(h.street) ==>
                  h'.shown == h.shown && h'.street == h.street)
  {
    LoopOutcome(h);
  }

  // ---------------------------------------------------------------------------------------------
  // The deck
  // ---------------------------------------------------------------------------------------------

  function HoleCards(seats: Seats): seq<Card> {
    if seats == [] then []
    else (if seats[0].Some? then seats[0].value.cards else []) + HoleCards(seats[1..])
  }

  /** The board grows by the top of the deck, card by card. */
  lemma {:induction false} ShowsTheTop(board: seq<Card>, remain: seq<Card>, n: nat, k: nat)
    requires k < n && k < |remain|
    ensures var (b, _) := Show(board, remain, n);
            |b| > |board| + k && b[|board| + k] == remain[|remain| - 1 - k]
    decreases |remain|
  {
    var last := remain[|remain| - 1];
    ShowCounts(board + [last], remain[..|remain| - 1], n - 1);
    if k > 0 {
      ShowsTheTop(board + [last], remain[..|remain| - 1], n - 1, k - 1);
    }
  }

  /** `dealt` is the top of the deck, in the order in which it comes off. */
  ghost predicate IsTheTop(dealt: seq<Card>, deck: seq<Card>) {
    |dealt| <= |deck| && forall k :: 0 <= k < |dealt| ==> dealt[k] == deck[|deck| - 1 - k]
  }

  lemma TwoMoreFromTheTop(dealt: seq<Card>, deck: seq<Card>)
    requires |deck| >= 2 && IsTheTop(dealt, deck[..|deck| - 2])
    ensures IsTheTop([deck[|deck| - 1], deck[|deck| - 2]] + dealt, deck)
  {
  }

  /** The hands are the top of the deck, two by two in the order of the seats. */
  lemma {:induction false} DealsTheTop(seats: Seats, remain: seq<Card>, decks: seq<seq<Card>>)
    requires |decks| == |seats| && forall d :: d in decks ==> |d| >= 2
    requires 2 * |Players(seats)| <= |remain|
    ensures IsTheTop(HoleCards(Divide(seats, remain, decks).0), remain)
  {
    if seats != [] {
      var (seat, deck) := AfterSeat(seats[0], remain, decks[0]);
      DealsTheTop(seats[1..], deck, decks[1..]);
      var rest := Divide(seats[1..], deck, decks[1..]).0;
      HoleCardsFirst(seat, rest);
      if seats[0].Some? {
        TwoMoreFromTheTop(HoleCards(rest), remain);
      } else {
        assert [] + HoleCards(rest) == HoleCards(rest);
      }
    }
  }

  /** Every card of `deck` is in the deck, on the board or in a hand, and nothing else is. */
  ghost predicate Partition(h: Hand, deck: seq<Card>) {
    multiset(h.remain) + multiset(h.board) + multiset(HoleCards(h.seats)) == multiset(deck)
  }

  lemma NewRoundKeepsCards(seats: Seats)
    ensures HoleCards(NewRound(seats)) == HoleCards(seats)
  {
    if seats != [] {
      assert NewRound(seats)[1..] == NewRound(seats[1..]);
      NewRoundKeepsCards(seats[1..]);
    }
  }

  /** A hand on a street with its community cards and enough cards for the rest of them. */
  ghost predicate Ready(h: Hand, deck: seq<Card>) {
    && InRound(h.street)
    && Partition(h, deck)
    && |h.board| == BoardSize(h.street)
    && |h.board| + |h.remain| >= 5
  }

  lemma ShowingKeepsPartition(h: Hand, h': Hand, n: nat, deck: seq<Card>)
    requires Partition(h, deck) && HoleCards(h'.seats) == HoleCards(h.seats)
    requires (h'.board, h'.remain) == Show(h.board, h.remain, n)
    ensures Partition(h', deck) && h.board <= h'.board
    ensures |h'.board| + |h'.remain| == |h.board| + |h.remain|
    ensures |h'.board| == |h.board| + (if n <= |h.remain| then n else |h.remain|)
  {
    ShowCounts(h.board, h.remain, n);
    calc {
      multiset(h'.remain) + multiset(h'.board) + multiset(HoleCards(h'.seats));
      (multiset(h'.board) + multiset(h'.remain)) + multiset(HoleCards(h.seats));
      (multiset(h.board) + multiset(h.remain)) + multiset(HoleCards(h.seats));
      multiset(h.remain) + multiset(h.board) + multiset(HoleCards(h.seats));
    }
  }

  lemma NextStreetKeepsReady(h: Hand, deck: seq<Card>)
    requires Ready(h, deck) && Transition(h.street).Some?
    ensures Ready(NextStreet(h), deck) && h.board <= NextStreet(h).board
  {
    NewRoundKeepsCards(h.seats);
    ShowingKeepsPartition(h, NextStreet(h), Transition(h.street).value.1, deck);
  }

  lemma {:induction false} LoopKeepsReady(h: Hand, deck: seq<Card>)
    requires Ready(h, deck)
    ensures Ready(Loop(h).0, deck) && h.board <= Loop(h).0.board
    decreases StreetsLeft(h.street)
  {
    if Transition(h.street) == None {
      NewRoundKeepsCards(h.seats);
    } else {
      NextStreetKeepsReady(h, deck);
      var h' := NextStreet(h);
      if ActiveCount(h'.seats) > 0 {
        SameTable(h', Loop(h).0, deck);
      } else if h'.street == River {
        SameTable(h', Loop(h).0, deck);
      } else {
        LoopKeepsReady(h', deck);
      }
    }
  }

  lemma SameTable(h: Hand, h': Hand, deck: seq<Card>)
    requires Ready(h, deck) && h' == h.(turn := h'.turn, shown := h'.shown)
    ensures Ready(h', deck) && h.board <= h'.board
  {
  }

  /** A stage never loses, repeats or takes back a card, and leaves as many on the board as the street has. */
  lemma {:induction false} ProgressKeepsReady(h: Hand, deck: seq<Card>)
    requires Ready(h, deck)
    ensures Ready(Progress(h).0, deck) && h.board <= Progress(h).0.board
  {
    if Contenders(h.seats) > 1 {
      LoopKeepsReady(h, deck);
    }
  }

  lemma PairFromTheEnd(remain: seq<Card>, left: seq<Card>, dealt: seq<Card>)
    requires |remain| >= 2 && multiset(left) + multiset(dealt) == multiset(remain[..|remain| - 2])
    ensures multiset(left) + multiset([remain[|remain| - 1], remain[|remain| - 2]] + dealt) == multiset(remain)
  {
    var n := |remain|;
    assert remain == remain[..n - 2] + [remain[n - 2], remain[n - 1]];
  }

  /** What `Divide` gives out and what it leaves make up what it started from. */
  ghost predicate DealtFrom(dealt: Seats, left: seq<Card>, remain: seq<Card>) {
    multiset(left) + multiset(HoleCards(dealt)) == multiset(remain)
  }

  lemma DealtFirst(seat: Option<Player>, rest: Seats, left: seq<Card>, remain: seq<Card>, spare: seq<Card>,
                   was: Option<Player>)
    requires |spare| >= 2 && (was.Some? ==> |remain| >= 2)
    requires seat == AfterSeat(was, remain, spare).0 && DealtFrom(rest, left, AfterSeat(was, remain, spare).1)
    ensures DealtFrom([seat] + rest, left, remain)
  {
    HoleCardsFirst(seat, rest);
    if was.Some? {
      PairFromTheEnd(remain, left, HoleCards(rest));
    } else {
      assert [] + HoleCards(rest) == HoleCards(rest);
    }
  }

  lemma {:induction false} DivideDeals(seats: Seats, remain: seq<Card>, decks: seq<seq<Card>>)
    requires |decks| == |seats| && forall d :: d in decks ==> |d| >= 2
    requires |remain| >= 2 * |Players(seats)|
    ensures DealtFrom(Divide(seats, remain, decks).0, Divide(seats, remain, decks).1, remain)
    ensures |Divide(seats, remain, decks).1| == |remain| - 2 * |Players(seats)|
  {
    if seats != [] {
      var (seat, deck) := AfterSeat(seats[0], remain, decks[0]);
      DivideDeals(seats[1..], deck, decks[1..]);
      var (rest, left) := Divide(seats[1..], deck, decks[1..]);
      DealtFirst(seat, rest, left, remain, decks[0], seats[0]);
    }
  }

  lemma HoleCardsFirst(seat: Option<Player>, rest: Seats)
    ensures HoleCards([seat] + rest) == (if seat.Some? then seat.value.cards else []) + HoleCards(rest)
  {
    assert ([seat] + rest)[1..] == rest;
  }

  lemma {:induction false} TwoCardsEach(seats: Seats, remain: seq<Card>, decks: seq<seq<Card>>)
    requires |decks| == |seats| && forall d :: d in decks ==> |d| >= 2
    ensures |HoleCards(Divide(seats, remain, decks).0)| == 2 * |Players(seats)|
  {
    if seats != [] {
      var (seat, deck) := AfterSeat(seats[0], remain, decks[0]);
      TwoCardsEach(seats[1..], deck, decks[1..]);
      assert Divide(seats, remain, decks).0[1..] == Divide(seats[1..], deck, decks[1..]).0;
    }
  }

  /** The deal takes its cards from the deck of the hand exactly when the deck has two for everybody;
      otherwise it is refilled on the way, and the hands no longer come from one deck. */
  lemma {:induction false} DealIsFairExactlyWithEnoughCards(seats: Seats, remain: seq<Card>, decks: seq<seq<Card>>)
    requires |decks| == |seats| && forall d :: d in decks ==> |d| >= 2
    ensures var (dealt, left) := Divide(seats, remain, decks);
            multiset(left) + multiset(HoleCards(dealt)) == multiset(remain) <==> |remain| >= 2 * |Players(seats)|
  {
    var (dealt, left) := Divide(seats, remain, decks);
    if |remain| >= 2 * |Players(seats)| {
      DivideDeals(seats, remain, decks);
    } else {
      TwoCardsEach(seats, remain, decks);
      assert |multiset(left) + multiset(HoleCards(dealt))| == |left| + |HoleCards(dealt)|;
    }
  }

  // ---------------------------------------------------------------------------------------------
  // A whole hand
  // ---------------------------------------------------------------------------------------------

  /** What betting may do: anything to states and bets, nothing to the cards in hand. */
  ghost predicate SameCards(seats: Seats, s: Seats) {
    |s| == |seats| && HoleCards(s) == HoleCards(seats)
  }

  ghost predicate BettingRounds(seats: Seats, rounds: seq<Seats>) {
    forall s :: s in rounds ==> SameCards(seats, s)
  }

  /** The hand after each betting round has left the seats as in `rounds` and the stage was progressed. */
  function Play(h: Hand, rounds: seq<Seats>): (Hand, bool)
    decreases |rounds|
  {
    if rounds == [] then (h, true)
    else
      var (h', goesOn) := Progress(h.(seats := rounds[0]));
      if goesOn then Play(h', rounds[1..]) else (h', false)
  }

  lemma ProgressKeepsCards(h: Hand)
    ensures SameCards(h.seats, Progress(h).0.seats)
    decreases StreetsLeft(h.street)
  {
    if Contenders(h.seats) > 1 {
      LoopKeepsCards(h);
    }
  }

  lemma {:induction false} LoopKeepsCards(h: Hand)
    ensures SameCards(h.seats, Loop(h).0.seats)
    decreases StreetsLeft(h.street)
  {
    NewRoundKeepsCards(h.seats);
    if Transition(h.street).Some? {
      var h' := NextStreet(h);
      if ActiveCount(h'.seats) == 0 && h'.street != River {
        LoopKeepsCards(h');
      }
    }
  }

  /** Whatever the betting does, at every moment of the hand the deck, the board and the hands partition
      the deck of the hand and the board fits the street; the hand is finalised once when it ends and not
      before, and with all five cards when two contenders remain. */
  lemma {:induction false} WholeHand(h: Hand, rounds: seq<Seats>, deck: seq<Card>)
    requires Ready(h, deck) && h.shown == [] && BettingRounds(h.seats, rounds)
    ensures var (h', goesOn) := Play(h, rounds);
            && Ready(h', deck) && h.board <= h'.board
            && (goesOn ==> h'.shown == [])
            && (!goesOn ==> |h'.shown| == 1 && h'.shown[0].board == h'.board)
            && (!goesOn && h'.shown[0].contenders >= 2 ==> |h'.board| == 5)
    decreases |rounds|
  {
    if rounds != [] {
      assert SameCards(h.seats, rounds[0]);
      var h0 := h.(seats := rounds[0]);
      ProgressKeepsReady(h0, deck);
      ProgressKeepsCards(h0);
      StreetMachine(h0);
      var (h', goesOn) := Progress(h0);
      if goesOn {
        forall s | s in rounds[1..] ensures SameCards(h'.seats, s) {
          assert SameCards(h.seats, s);
        }
        WholeHand(h', rounds[1..], deck);
      }
    }
  }

  /** From the deal to the showdown: a deck of at least 2n + 5 cards is enough for a whole hand of n. */
  lemma HandFromTheDeal(seats: Seats, deck: seq<Card>, decks: seq<seq<Card>>, dealer: int, rounds: seq<Seats>)
    requires |decks| == |seats| && forall d :: d in decks ==> |d| >= 2
    requires |deck| >= 2 * |Players(seats)| + 5
    requires BettingRounds(Divide(seats, deck, decks).0, rounds)
    ensures var (dealt, left) := Divide(seats, deck, decks);
            var (h, goesOn) := Play(Hand(dealt, PreFlop, [], left, dealer, -1, []), rounds);
            && Partition(h, deck) && |h.board| == BoardSize(h.street)
            && |h.shown| == (if goesOn then 0 else 1)
            && (h.shown != [] && h.shown[0].contenders >= 2 ==> |h.shown[0].board| == 5)
  {
    DivideDeals(seats, deck, decks);
    var (dealt, left) := Divide(seats, deck, decks);
    WholeHand(Hand(dealt, PreFlop, [], left, dealer, -1, []), rounds, deck);
  }

  /** With a deck without repeated cards no card of a partitioned hand is in two places. */
  lemma NoCardTwice(h: Hand, deck: seq<Card>, c: Card)
    requires Partition(h, deck) && forall i, j :: 0 <= i < j < |deck| ==> deck[i] != deck[j]
    ensures multiset(h.remain)[c] + multiset(h.board)[c] + multiset(HoleCards(h.seats))[c] <= 1
  {
    assert multiset(deck)[c] == (multiset(h.remain) + multiset(h.board) + multiset(HoleCards(h.seats)))[c];
    Once(deck, c);
  }

  lemma Once(deck: seq<Card>, c: Card)
    requires forall i, j :: 0 <= i < j < |deck| ==> deck[i] != deck[j]
    ensures multiset(deck)[c] <= 1
  {
    if deck != [] {
      assert deck == [deck[0]] + deck[1..];
      Once(deck[1..], c);
    }
  }

  // ---------------------------------------------------------------------------------------------
  // What a stage and a deal do, seat by seat and card by card
  // ---------------------------------------------------------------------------------------------

  predicate InHand(seats: Seats, i: nat) {
    i < |seats| && seats[i].Some? && seats[i].value.state in {Active, AllIn}
  }

  lemma StillIn(seats: Seats)
    requires seats != []
    ensures Contenders(seats) == (if InHand(seats, 0) then 1 else 0) + Contenders(seats[1..])
    ensures ActiveCount(seats) == (if CanBetAt(seats, 0) then 1 else 0) + ActiveCount(seats[1..])
  {
    if seats[0].Some? {
      CountFirst(seats[0].value, Players(seats[1..]), {Active, AllIn});
      CountFirst(seats[0].value, Players(seats[1..]), {Active});
    } else {
      assert [] + Players(seats[1..]) == Players(seats[1..]);
    }
  }

  /** Who counts: contenders are the players on the seats who are active or all in, and at most one of them is left
      exactly when no two are; somebody can bet exactly when somebody is active. */
  lemma {:induction false} WhoIsLeft(seats: Seats)
    ensures Contenders(seats) == 0 <==> forall i: nat :: !InHand(seats, i)
    ensures Contenders(seats) <= 1 <==> forall i: nat, j: nat :: i < j ==> !InHand(seats, i) || !InHand(seats, j)
    ensures ActiveCount(seats) > 0 <==> exists i: nat :: CanBetAt(seats, i)
  {
    if seats != [] {
      WhoIsLeft(seats[1..]);
      StillIn(seats);
      forall i: nat ensures InHand(seats[1..], i) <==> InHand(seats, i + 1) {
      }
      forall i: nat ensures CanBetAt(seats[1..], i) <==> CanBetAt(seats, i + 1) {
      }
      forall i: nat | i > 0 ensures InHand(seats, i) ==> InHand(seats[1..], i - 1) {
      }
      forall i: nat | i > 0 && CanBetAt(seats, i) ensures CanBetAt(seats[1..], i - 1) {
      }
    }
  }

  /** The cards that a stage shows: three on the flop and one on turn and river; or, when nobody can bet any more, all
      that are missing. */
  function DueCards(street: Street, goesOn: bool): nat {
    match street
    case PreFlop => if goesOn then 3 else 5
    case Flop => if goesOn then 1 else 2
    case Turn => 1
    case _ => 0
  }

  ghost predicate ShowsDue(h: Hand, h': Hand, due: nat) {
    var n := if due <= |h.remain| then due else |h.remain|;
    |h'.board| == |h.board| + n && h'.remain == h.remain[..|h.remain| - n] && h.board <= h'.board
  }

  lemma {:induction false} ShowTakesFromTheEnd(board: seq<Card>, remain: seq<Card>, n: nat)
    ensures var (b, r) := Show(board, remain, n);
            r == remain[..|remain| - (if n <= |remain| then n else |remain|)]
    decreases |remain|
  {
    if n > 0 && remain != [] {
      ShowTakesFromTheEnd(board + [remain[|remain| - 1]], remain[..|remain| - 1], n - 1);
    }
  }

  lemma NextStreetShows(h: Hand)
    requires Transition(h.street).Some?
    ensures ShowsDue(h, NextStreet(h), if h.street == PreFlop then 3 else 1)
    ensures NextStreet(h).street == (match h.street case PreFlop => Flop case Flop => Turn case _ => River)
    ensures NextStreet(h).dealer == h.dealer && ActiveCount(NextStreet(h).seats) == ActiveCount(h.seats)
  {
    var n := Transition(h.street).value.1;
    ShowCounts(h.board, h.remain, n);
    ShowTakesFromTheEnd(h.board, h.remain, n);
    NewRoundKeepsStates(h.seats, {Active});
  }

  lemma ShowsInAll(h: Hand, h1: Hand, h2: Hand, m: nat, n: nat)
    requires ShowsDue(h, h1, m) && ShowsDue(h1, h2, n)
    ensures ShowsDue(h, h2, m + n)
  {
  }

  lemma {:induction false} LoopShows(h: Hand)
    ensures var (h', goesOn) := Loop(h);
            && ShowsDue(h, h', DueCards(h.street, goesOn)) && h'.dealer == h.dealer
            && (goesOn ==> h.street in {PreFlop, Flop, Turn} && h'.street == NextStreet(h).street)
    decreases StreetsLeft(h.street)
  {
    if Transition(h.street).Some? {
      NextStreetShows(h);
      var later := NextStreet(h);
      if ActiveCount(later.seats) == 0 && later.street != River {
        LoopShows(later);
        NobodyCanBetLater(h);
        ShowsInAll(h, later, Loop(h).0, if h.street == PreFlop then 3 else 1, DueCards(later.street, false));
      } else {
        LastStreetOfLoop(h);
      }
    }
  }

  /** When nobody can bet on the next street, nobody can on those after it. */
  lemma NobodyCanBetLater(h: Hand)
    requires Transition(h.street).Some? && ActiveCount(NextStreet(h).seats) == 0 && NextStreet(h).street != River
    ensures Loop(h) == Loop(NextStreet(h)) && !Loop(h).1
  {
    LoopOutcome(NextStreet(h));
  }

  lemma LastStreetOfLoop(h: Hand)
    requires Transition(h.street).Some? && (ActiveCount(NextStreet(h).seats) > 0 || NextStreet(h).street == River)
    ensures var (h', goesOn) := Loop(h);
            && (goesOn <==> ActiveCount(NextStreet(h).seats) > 0) && (goesOn ==> h'.street == NextStreet(h).street)
            && h'.board == NextStreet(h).board && h'.remain == NextStreet(h).remain && h'.dealer == NextStreet(h).dealer
  {
  }

  lemma RestedTwice(seats: Seats)
    ensures NewRound(NewRound(seats)) == NewRound(seats)
  {
  }

  lemma {:induction false} LoopRests(h: Hand)
    ensures Loop(h).0.seats == NewRound(h.seats)
    decreases StreetsLeft(h.street)
  {
    if Transition(h.street).Some? {
      var later := NextStreet(h);
      RestedTwice(h.seats);
      if ActiveCount(later.seats) == 0 && later.street != River {
        LoopRests(later);
      }
    }
  }

  /** A stage in full: with one contender left nothing but the showdown happens. Otherwise all bets are cleared, the
      flop, the turn or the river comes, in this order, and exactly their cards go from the end of the deck to the
      board, or all that are missing when nobody can bet. The button stays. */
  lemma StageMeansWhatItSays(h: Hand)
    ensures var (h', goesOn) := Progress(h);
            && h'.dealer == h.dealer
            && (Contenders(h.seats) <= 1 ==> !goesOn && h' == h.(shown := h'.shown, turn := -1))
            && (Contenders(h.seats) >= 2 ==>
                  h'.seats == NewRound(h.seats) && ShowsDue(h, h', DueCards(h.street, goesOn)))
            && (goesOn ==> h'.street == match h.street case PreFlop => Flop case Flop => Turn case _ => River)
  {
    if Contenders(h.seats) >= 2 {
      LoopShows(h);
      LoopRests(h);
      if Progress(h).1 {
        NextStreetShows(h);
      }
    }
  }

  /** The deal gives every player two cards and changes nothing else about anybody, also when the deck is refilled on
      the way. */
  lemma {:induction false} DealGivesTwoEach(seats: Seats, remain: seq<Card>, decks: seq<seq<Card>>, i: nat)
    requires |decks| == |seats| && i < |seats| && forall d :: d in decks ==> |d| >= 2
    ensures |Divide(seats, remain, decks).0| == |seats|
    ensures var seat := Divide(seats, remain, decks).0[i];
            if seats[i] == None then seat == None
            else seat.Some? && |seat.value.cards| == 2 && seat.value == seats[i].value.(cards := seat.value.cards)
  {
    var (seat, deck) := AfterSeat(seats[0], remain, decks[0]);
    SameLength(seats[1..], deck, decks[1..]);
    if i > 0 {
      DealGivesTwoEach(seats[1..], deck, decks[1..], i - 1);
    }
  }

  lemma {:induction false} SameLength(seats: Seats, remain: seq<Card>, decks: seq<seq<Card>>)
    requires |decks| == |seats| && forall d :: d in decks ==> |d| >= 2
    ensures |Divide(seats, remain, decks).0| == |seats|
  {
    if seats != [] {
      SameLength(seats[1..], AfterSeat(seats[0], remain, decks[0]).1, decks[1..]);
    }
  }
}
