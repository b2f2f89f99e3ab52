/** The dealer button (pokerapp/entities.py, `Game.next_occupied_seat` and `advance_dealer`), for a table of
    any size. `seats[i]` says whether somebody sits on seat `i`. */
module DealerRotation {
  import opened Basics

  /** The seats in the order in which a search that starts after `start` looks at them, once round the table. */
  function Ring(start: int, n: nat): seq<int> {
    seq(n, k requires 0 <= k < n => (start + 1 + k) % n)
  }

  predicate OnTable(ring: seq<int>, seats: seq<bool>) {
    forall i :: 0 <= i < |ring| ==> 0 <= ring[i] < |seats|
  }

  /** The first occupied seat of `ring`. */
  function Search(seats: seq<bool>, ring: seq<int>): int
    requires OnTable(ring, seats)
  {
    if ring == [] then -1 else if seats[ring[0]] then ring[0] else Search(seats, ring[1..])
  }

  /** `next_occupied_seat` */
  function NextOccupied(seats: seq<bool>, start: int): int {
    if true !in seats then -1 else Search(seats, Ring(if 0 <= start < |seats| then start else -1, |seats|))
  }

  function Occupied(seats: seq<bool>): set<int> {
    set i | 0 <= i < |seats| && seats[i]
  }

  class Game {
    var seats: seq<bool>
    var dealerIndex: int

    method NextOccupiedSeat(startSeat: int) returns (seat: int)
      ensures seat == NextOccupied(seats, startSeat)
    {
      if true !in seats {
        return -1;
      }
      var start := if 0 <= startSeat < |seats| then startSeat else -1;
      ghost var ring := Ring(start, |seats|);
      for i := 1 to |seats| + 1
        invariant Search(seats, ring[i - 1..]) == Search(seats, ring)
      {
        var next := (start + i) % |seats|;
        assert ring[i - 1..][0] == next && ring[i - 1..][1..] == ring[i..];
        if seats[next] {
          return next;
        }
      }
      return -1;
    }

    method AdvanceDealer() returns (seat: int)
      modifies this`dealerIndex
      ensures seat == dealerIndex == NextOccupied(seats, old(dealerIndex))
    {
      seat := NextOccupiedSeat(dealerIndex);
      dealerIndex := seat;
    }
  }

  // ---------------------------------------------------------------------------------------------
  // The ring
  // ---------------------------------------------------------------------------------------------

  lemma RingIsDistinct(start: int, n: nat, i: nat, j: nat)
    requires i < j < n
    ensures Ring(start, n)[i] != Ring(start, n)[j]
  {
    if (start + 1 + i) % n == (start + 1 + j) % n {
      SameRemainder(n, start + 1 + i, start + 1 + j);
    }
  }

  lemma RingHas(start: int, n: nat, x: nat) returns (i: nat)
    requires x < n
    ensures i < n && Ring(start, n)[i] == x
  {
    i := (x - start - 1) % n;
    RemainderFirst(n, x - start - 1, start + 1);
    RemainderIs(n, x, 0, x);
  }

  lemma RingEndsAtStart(start: nat, n: nat)
    requires start < n
    ensures Ring(start, n)[n - 1] == start
  {
    RemainderPastEnd(n, start);
    RemainderIs(n, start, 0, start);
  }

  function Wrapped(n: nat, i: nat): int {
    if i < n then i else i - n
  }

  lemma TurnedAt(ring: seq<int>, j: nat, k: nat)
    requires j < |ring| && k < |ring|
    ensures (ring[j + 1..] + ring[..j + 1])[k] == ring[Wrapped(|ring|, j + 1 + k)]
  {
  }

  lemma RemainderTurns(start: int, n: nat, j: nat, k: nat)
    requires j < n && k < n
    ensures ((start + 1 + j) % n + 1 + k) % n == (start + 1 + Wrapped(n, j + 1 + k)) % n
  {
    RemainderFirst(n, start + 1 + j, 1 + k);
    if j + 1 + k >= n {
      RemainderPastEnd(n, start + 1 + (j + 1 + k - n));
    }
  }

  lemma RingAt(start: int, n: nat, j: nat, k: nat)
    requires j < n && k < n
    ensures Ring(Ring(start, n)[j], n)[k] == Ring(start, n)[Wrapped(n, j + 1 + k)]
  {
    RemainderTurns(start, n, j, k);
  }

  /** The ring of a seat of the ring is the same ring, turned. */
  lemma RingTurns(start: int, n: nat, j: nat)
    requires j < n
    ensures Ring(Ring(start, n)[j], n) == Ring(start, n)[j + 1..] + Ring(start, n)[..j + 1]
  {
    var ring := Ring(start, n);
    SameWhenTurned(ring, Ring(ring[j], n), j) by {
      forall k | 0 <= k < n ensures Ring(ring[j], n)[k] == ring[Wrapped(n, j + 1 + k)] {
        RingAt(start, n, j, k);
      }
    }
  }

  lemma SameWhenTurned(ring: seq<int>, turned: seq<int>, j: nat)
    requires j < |ring| == |turned|
    requires forall k :: 0 <= k < |ring| ==> turned[k] == ring[Wrapped(|ring|, j + 1 + k)]
    ensures turned == ring[j + 1..] + ring[..j + 1]
  {
    forall k | 0 <= k < |ring| ensures turned[k] == (ring[j + 1..] + ring[..j + 1])[k] {
      TurnedAt(ring, j, k);
    }
  }

  // ---------------------------------------------------------------------------------------------
  // The search
  // ---------------------------------------------------------------------------------------------

  /** The occupied seats of a ring, in its order. */
  function Taken(seats: seq<bool>, ring: seq<int>): seq<int>
    requires OnTable(ring, seats)
  {
    if ring == [] then []
    else if seats[ring[0]] then [ring[0]] + Taken(seats, ring[1..])
    else Taken(seats, ring[1..])
  }

  lemma {:induction false} SearchIsFirstTaken(seats: seq<bool>, ring: seq<int>, more: seq<int>)
    requires OnTable(ring, seats) && OnTable(more, seats) && Taken(seats, ring) != []
    ensures OnTable(ring + more, seats)
    ensures Search(seats, ring + more) == Taken(seats, ring)[0]
  {
    if !seats[ring[0]] {
      SearchIsFirstTaken(seats, ring[1..], more);
      assert (ring + more)[1..] == ring[1..] + more;
    }
  }

  lemma {:induction false} TakenElements(seats: seq<bool>, ring: seq<int>)
    requires OnTable(ring, seats)
    ensures forall x :: x in Taken(seats, ring) <==> x in ring && seats[x]
  {
    if ring != [] {
      TakenElements(seats, ring[1..]);
    }
  }

  lemma {:induction false} TakenIsDistinct(seats: seq<bool>, ring: seq<int>)
    requires OnTable(ring, seats) && Distinct(ring)
    ensures Distinct(Taken(seats, ring))
  {
    if ring != [] {
      TakenIsDistinct(seats, ring[1..]);
      TakenElements(seats, ring[1..]);
    }
  }

  lemma {:induction false} LastIsTaken(seats: seq<bool>, ring: seq<int>)
    requires OnTable(ring, seats) && ring != [] && seats[ring[|ring| - 1]]
    ensures var taken := Taken(seats, ring); taken != [] && taken[|taken| - 1] == ring[|ring| - 1]
  {
    if |ring| > 1 {
      LastIsTaken(seats, ring[1..]);
    }
  }

  /** The search returns an occupied seat exactly when there is one, and -1 otherwise. */
  lemma NextIsOccupied(seats: seq<bool>, start: int)
    ensures var r := NextOccupied(seats, start);
            if Occupied(seats) == {} then r == -1 else r in Occupied(seats)
  {
    if true in seats {
      var x :| 0 <= x < |seats| && seats[x];
      assert x in Occupied(seats);
      var s := if 0 <= start < |seats| then start else -1;
      var ring := Ring(s, |seats|);
      var i := RingHas(s, |seats|, x);
      assert x in ring;
      TakenElements(seats, ring);
      SearchIsFirstTaken(seats, ring, []);
      assert ring + [] == ring;
      assert Taken(seats, ring)[0] in Taken(seats, ring);
    } else {
      forall i | 0 <= i < |seats| ensures !seats[i] {
        assert seats[i] in seats;
      }
    }
  }

  // ---------------------------------------------------------------------------------------------
  // The rotation
  // ---------------------------------------------------------------------------------------------

  /** The seats that `count` calls of `advance_dealer` return, starting with the button on `dealer`. */
  function Walk(seats: seq<bool>, dealer: int, count: nat): seq<int>
    decreases count
  {
    if count == 0 then []
    else [NextOccupied(seats, dealer)] + Walk(seats, NextOccupied(seats, dealer), count - 1)
  }

  /** Where in a ring its first occupied seat is. */
  lemma {:induction false} FirstTaken(seats: seq<bool>, ring: seq<int>) returns (i: nat)
    requires OnTable(ring, seats) && Taken(seats, ring) != []
    ensures i < |ring| && seats[ring[i]]
    ensures Taken(seats, ring) == [ring[i]] + Taken(seats, ring[i + 1..])
  {
    if seats[ring[0]] {
      i := 0;
    } else {
      i := FirstTaken(seats, ring[1..]);
      i := i + 1;
      assert ring[1..][i..] == ring[i + 1..];
    }
  }

  lemma NextOnRing(seats: seq<bool>, here: nat, ahead: seq<int>, behind: seq<int>)
    requires here < |seats| && true in seats && Ring(here, |seats|) == ahead + behind
    requires OnTable(ahead, seats) && OnTable(behind, seats) && Taken(seats, ahead) != []
    ensures NextOccupied(seats, here) == Taken(seats, ahead)[0]
  {
    SearchIsFirstTaken(seats, ahead, behind);
  }

  /** One move of the button along the ring. */
  lemma MoveAlong(seats: seq<bool>, start: nat, here: nat, j: nat) returns (next: nat)
    requires start < |seats| && here < |seats| && j <= |seats| && true in seats
    requires var ring := Ring(start, |seats|); Ring(here, |seats|) == ring[j..] + ring[..j]
    requires OnTable(Ring(start, |seats|)[j..], seats) && Taken(seats, Ring(start, |seats|)[j..]) != []
    ensures j <= next < |seats|
    ensures var ring := Ring(start, |seats|);
            && NextOccupied(seats, here) == ring[next]
            && Taken(seats, ring[j..]) == [ring[next]] + Taken(seats, ring[next + 1..])
            && Ring(ring[next], |seats|) == ring[next + 1..] + ring[..next + 1]
  {
    var ring := Ring(start, |seats|);
    NextOnRing(seats, here, ring[j..], ring[..j]);
    var i := FirstTaken(seats, ring[j..]);
    next := j + i;
    RingTurns(start, |seats|, next);
    assert ring[j..][i] == ring[next] && ring[j..][i + 1..] == ring[next + 1..];
  }

  /** From a seat after which the ring continues at `j`, the button visits the rest of the ring. */
  lemma {:induction false} WalkFollowsRing(seats: seq<bool>, start: nat, here: nat, j: nat)
    requires start < |seats| && here < |seats| && j <= |seats| && true in seats
    requires var ring := Ring(start, |seats|); Ring(here, |seats|) == ring[j..] + ring[..j]
    ensures OnTable(Ring(start, |seats|)[j..], seats)
    ensures var rest := Taken(seats, Ring(start, |seats|)[j..]); Walk(seats, here, |rest|) == rest
    decreases |seats| - j
  {
    var ring := Ring(start, |seats|);
    if Taken(seats, ring[j..]) != [] {
      var next := MoveAlong(seats, start, here, j);
      WalkFollowsRing(seats, start, ring[next], next + 1);
      WalkOneMore(seats, here, ring[next], Taken(seats, ring[next + 1..]));
    }
  }

  lemma WalkOneMore(seats: seq<bool>, here: int, next: int, rest: seq<int>)
    requires NextOccupied(seats, here) == next && Walk(seats, next, |rest|) == rest
    ensures Walk(seats, here, |[next] + rest|) == [next] + rest
  {
  }

  lemma {:induction false} SizeOfDistinct(s: seq<int>)
    requires Distinct(s)
    ensures |set x | x in s| == |s|
  {
    if s != [] {
      SizeOfDistinct(s[1..]);
      assert (set x | x in s) == {s[0]} + (set x | x in s[1..]);
    }
  }

  lemma RingVisitsAll(seats: seq<bool>, start: int)
    requires seats != []
    ensures OnTable(Ring(start, |seats|), seats)
    ensures var taken := Taken(seats, Ring(start, |seats|));
            Distinct(taken) && (set x | x in taken) == Occupied(seats) && |taken| == |Occupied(seats)|
  {
    var n := |seats|;
    var ring := Ring(start, n);
    forall i, j | 0 <= i < j < n ensures ring[i] != ring[j] {
      RingIsDistinct(start, n, i, j);
    }
    TakenIsDistinct(seats, ring);
    TakenElements(seats, ring);
    forall x | x in Occupied(seats) ensures x in ring {
      var i := RingHas(start, n, x);
    }
    SizeOfDistinct(Taken(seats, ring));
  }

  lemma {:induction false} SearchFindsFirst(seats: seq<bool>, ring: seq<int>, k: nat)
    requires OnTable(ring, seats) && k < |ring| && seats[ring[k]]
    ensures exists i :: 0 <= i <= k && Search(seats, ring) == ring[i] && seats[ring[i]]
  {
    if !seats[ring[0]] {
      SearchFindsFirst(seats, ring[1..], k - 1);
      var i :| 0 <= i <= k - 1 && Search(seats, ring[1..]) == ring[1..][i] && seats[ring[1..][i]];
      assert ring[1..][i] == ring[i + 1];
    }
  }

  /** Going up from `start`, round the table and on from its first seat, no seat before the next occupied one is
      occupied. A start that is not on the table counts as before the first seat. */
  lemma NextIsNearest(seats: seq<bool>, start: int, seat: nat)
    requires Seated(seats, seat)
    ensures var from, next := if 0 <= start < |seats| then start else -1, NextOccupied(seats, start);
            Seated(seats, next) && Distance(from, next, |seats|) <= Distance(from, seat, |seats|)
  {
    var n, from := |seats|, if 0 <= start < |seats| then start else -1;
    var ring := Ring(from, n);
    var k := Distance(from, seat, n) - 1;
    assert true in seats && ring[k] == seat;
    SearchFindsFirst(seats, ring, k);
    var i :| 0 <= i <= k && Search(seats, ring) == ring[i] && seats[ring[i]];
    DistanceOf(from, i + 1, n);
  }

  /** With the button on one of k occupied seats, k moves bring it to every occupied seat exactly once and
      finally back to where it was. */
  lemma ButtonGoesRound(seats: seq<bool>, dealer: nat)
    requires dealer < |seats| && seats[dealer]
    ensures var visited := Walk(seats, dealer, |Occupied(seats)|);
            && |visited| == |Occupied(seats)| > 0
            && (set x | x in visited) == Occupied(seats)
            && Distinct(visited)
            && visited[|visited| - 1] == dealer
  {
    var ring := Ring(dealer, |seats|);
    assert seats[dealer] in seats;
    RingVisitsAll(seats, dealer);
    RingEndsAtStart(dealer, |seats|);
    LastIsTaken(seats, ring);
    assert ring[0..] == ring && ring[0..] + ring[..0] == ring;
    WalkFollowsRing(seats, dealer, dealer, 0);
  }

  // ---------------------------------------------------------------------------------------------
  // The blinds
  // ---------------------------------------------------------------------------------------------

  /** The seats of the small blind, the big blind and the first to act. */
  datatype BlindSeats = BlindSeats(small: int, big: int, first: int)

  predicate Seated(seats: seq<bool>, seat: int) {
    0 <= seat < |seats| && seats[seat]
  }

  /** The choice of seats in `set_blinds`: of two players the dealer posts the small blind and acts first. Nothing is
      posted by fewer players, or when a blind would fall on an empty seat. */
  function ChooseBlinds(seats: seq<bool>, dealer: int): Option<BlindSeats> {
    if |Occupied(seats)| < 2 then None
    else
      var small := if |Occupied(seats)| == 2 then dealer else NextOccupied(seats, dealer);
      var big := NextOccupied(seats, small);
      var first := if |Occupied(seats)| == 2 then small else NextOccupied(seats, big);
      if !Seated(seats, small) || !Seated(seats, big) then None else Some(BlindSeats(small, big, first))
  }

  /** With another player at the table the next occupied seat is another one. */
  lemma NextIsAnother(seats: seq<bool>, seat: nat)
    requires Seated(seats, seat) && |Occupied(seats)| >= 2
    ensures NextOccupied(seats, seat) != seat && Seated(seats, NextOccupied(seats, seat))
  {
    ButtonGoesRound(seats, seat);
    NextIsOccupied(seats, seat);
    var n := |Occupied(seats)|;
    assert Walk(seats, seat, n)[0] == NextOccupied(seats, seat);
  }

  /** Of three or more players, the next two are different from each other and from the first. */
  lemma NextTwoAreOthers(seats: seq<bool>, seat: nat)
    requires Seated(seats, seat) && |Occupied(seats)| >= 3
    ensures var next := NextOccupied(seats, seat);
            Seated(seats, next) && NextOccupied(seats, next) != seat && next != seat
  {
    ButtonGoesRound(seats, seat);
    NextIsAnother(seats, seat);
    var n := |Occupied(seats)|;
    var next := NextOccupied(seats, seat);
    assert Walk(seats, seat, n)[1] == Walk(seats, next, n - 1)[0] == NextOccupied(seats, next);
  }

  /** Blinds are posted exactly when three players sit at the table, or two with the dealer's button on one of them;
      and then by two different players, the second next after the first. From three players on, all three seats
      chosen are different, and neither blind falls on an occupied dealer's seat. */
  lemma BlindsFallOnTwoPlayers(seats: seq<bool>, dealer: int)
    ensures var chosen := ChooseBlinds(seats, dealer);
            var n := |Occupied(seats)|;
            && (chosen.Some? <==> n >= 3 || (n == 2 && Seated(seats, dealer)))
            && (chosen.Some? ==>
                  var b := chosen.value;
                  && Seated(seats, b.small) && Seated(seats, b.big) && Seated(seats, b.first)
                  && b.small != b.big && b.big == NextOccupied(seats, b.small)
                  && (n == 2 ==> b.small == b.first == dealer)
                  && (n >= 3 ==> b.first !in {b.small, b.big} && b.first == NextOccupied(seats, b.big))
                  && (n >= 3 && Seated(seats, dealer) ==> dealer !in {b.small, b.big}))
  {
    if |Occupied(seats)| >= 2 {
      NextIsOccupied(seats, dealer);
      var small := if |Occupied(seats)| == 2 then dealer else NextOccupied(seats, dealer);
      if Seated(seats, small) {
        NextIsAnother(seats, small);
        var big := NextOccupied(seats, small);
        NextIsAnother(seats, big);
        if |Occupied(seats)| >= 3 {
          NextTwoAreOthers(seats, small);
          if Seated(seats, dealer) {
            NextTwoAreOthers(seats, dealer);
          }
        }
      }
    }
  }
}
