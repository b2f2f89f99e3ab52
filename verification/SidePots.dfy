/** Slicing the pot of a hand into side pots and paying them out (pokerapp/game_engine.py,
    `_determine_pot_winners` and `_process_showdown_results`). */
module SidePots {
  import opened Basics

  type UserId = int

  /** One entry of `contender_details`; a higher score is a better hand. */
  datatype Contender = Contender(user: UserId, totalBet: int, score: int)

  datatype Pot = Pot(amount: int, winners: seq<Contender>)

  function Users(ds: seq<Contender>): set<UserId> {
    if ds == [] then {} else {ds[0].user} + Users(ds[1..])
  }

  /** No user appears twice. */
  ghost predicate DistinctUsers(ds: seq<Contender>) {
    ds == [] || (ds[0].user !in Users(ds[1..]) && DistinctUsers(ds[1..]))
  }

  // ---------------------------------------------------------------------------------------------
  // Tiers
  // ---------------------------------------------------------------------------------------------

  ghost predicate Ascending(ts: seq<int>) {
    forall i, j :: 0 <= i < j < |ts| ==> ts[i] < ts[j]
  }

  function InsertTier(bet: int, ts: seq<int>): (r: seq<int>)
    requires Ascending(ts)
    ensures Ascending(r)
    ensures forall x :: x in r <==> x == bet || x in ts
  {
    if ts == [] || bet < ts[0] then [bet] + ts
    else if bet == ts[0] then ts
    else
      var rest := InsertTier(bet, ts[1..]);
      assert forall x :: x in rest ==> ts[0] < x;
      assert forall i :: 0 <= i < |rest| ==> rest[i] in rest;
      [ts[0]] + rest
  }

  /** `sorted(set(...))` over the positive bets. */
  function Tiers(ds: seq<Contender>): (r: seq<int>)
    ensures Ascending(r)
  {
    if ds == [] then []
    else if ds[0].totalBet > 0 then InsertTier(ds[0].totalBet, Tiers(ds[1..]))
    else Tiers(ds[1..])
  }

  lemma BetIsTier(ds: seq<Contender>, d: Contender)
    requires d in ds && d.totalBet > 0
    ensures d.totalBet in Tiers(ds)
  {
    if d != ds[0] {
      BetIsTier(ds[1..], d);
    }
  }

  lemma TierIsBet(ds: seq<Contender>, tier: int) returns (d: Contender)
    requires tier in Tiers(ds)
    ensures tier > 0 && d in ds && d.totalBet == tier
  {
    if ds[0].totalBet == tier && tier > 0 {
      d := ds[0];
    } else {
      d := TierIsBet(ds[1..], tier);
    }
  }

  /** The tier below tier `k`. */
  function Floor(ts: seq<int>, k: nat): int
    requires k <= |ts|
  {
    if k == 0 then 0 else ts[k - 1]
  }

  // ---------------------------------------------------------------------------------------------
  // Who may win a level, and who does
  // ---------------------------------------------------------------------------------------------

  /** The contenders who bet at least `level`, in order. */
  function Eligible(ds: seq<Contender>, level: int): seq<Contender> {
    if ds == [] then []
    else if ds[0].totalBet >= level then [ds[0]] + Eligible(ds[1..], level)
    else Eligible(ds[1..], level)
  }

  function BestScore(es: seq<Contender>): int
    requires es != []
  {
    if |es| == 1 then es[0].score
    else if es[0].score > BestScore(es[1..]) then es[0].score
    else BestScore(es[1..])
  }

  function WithScore(es: seq<Contender>, score: int): seq<Contender> {
    if es == [] then []
    else if es[0].score == score then [es[0]] + WithScore(es[1..], score)
    else WithScore(es[1..], score)
  }

  /** The best hands among `es`. */
  function Best(es: seq<Contender>): seq<Contender> {
    if es == [] then [] else WithScore(es, BestScore(es))
  }

  lemma EligibleMembers(ds: seq<Contender>, level: int, d: Contender)
    ensures d in Eligible(ds, level) <==> d in ds && d.totalBet >= level
  {
  }

  lemma WithScoreMembers(es: seq<Contender>, score: int, e: Contender)
    ensures e in WithScore(es, score) <==> e in es && e.score == score
  {
  }

  lemma BestScoreIsBest(es: seq<Contender>) returns (best: Contender)
    requires es != []
    ensures best in es && best.score == BestScore(es)
    ensures forall e :: e in es ==> e.score <= BestScore(es)
  {
    best := es[0];
    if |es| > 1 {
      var other := BestScoreIsBest(es[1..]);
      if es[0].score <= BestScore(es[1..]) {
        best := other;
      }
    }
  }

  /** The winners of a level are exactly those of the eligible whom nobody eligible beats. */
  lemma BestMembers(es: seq<Contender>, e: Contender)
    ensures e in Best(es) <==> e in es && forall f :: f in es ==> f.score <= e.score
    ensures es != [] ==> Best(es) != []
  {
    if es != [] {
      var best := BestScoreIsBest(es);
      WithScoreMembers(es, BestScore(es), e);
      WithScoreMembers(es, BestScore(es), best);
    }
  }

  // ---------------------------------------------------------------------------------------------
  // The chip-by-chip rule
  // ---------------------------------------------------------------------------------------------

  /** Level by level, every contender who bet that much puts in one chip: the chips of the levels above
      `lo` up to `hi`. */
  function ChipsBetween(ds: seq<Contender>, lo: int, hi: int): int
    decreases hi - lo
  {
    if hi <= lo then 0 else ChipsBetween(ds, lo, hi - 1) + |Eligible(ds, hi)|
  }

  /** All that the contenders bet. */
  function Staked(ds: seq<Contender>): int {
    if ds == [] then 0 else Max0(ds[0].totalBet) + Staked(ds[1..])
  }

  /** What the contenders bet, each up to `cap`. */
  function Capped(ds: seq<Contender>, cap: int): int {
    if ds == [] then 0 else Max0(Min(ds[0].totalBet, cap)) + Capped(ds[1..], cap)
  }

  lemma CapRises(ds: seq<Contender>, cap: int)
    requires cap > 0
    ensures Capped(ds, cap) == Capped(ds, cap - 1) + |Eligible(ds, cap)|
  {
    if ds != [] {
      CapRises(ds[1..], cap);
    }
  }

  /** Chip by chip up to level `cap` collects from everyone what they bet, up to `cap`. */
  lemma ChipsAreCappedStakes(ds: seq<Contender>, cap: int)
    requires cap >= 0
    ensures ChipsBetween(ds, 0, cap) == Capped(ds, cap)
    decreases cap
  {
    if cap == 0 {
      NothingAtZero(ds);
    } else {
      ChipsAreCappedStakes(ds, cap - 1);
      CapRises(ds, cap);
    }
  }

  lemma NothingAtZero(ds: seq<Contender>)
    ensures Capped(ds, 0) == 0
  {
  }

  lemma HighCapTakesAll(ds: seq<Contender>, cap: int)
    requires forall d :: d in ds ==> d.totalBet <= cap || d.totalBet <= 0
    requires cap >= 0
    ensures Capped(ds, cap) == Staked(ds)
  {
    if ds != [] {
      assert ds[0] in ds;
      HighCapTakesAll(ds[1..], cap);
    }
  }

  lemma ChipsAdd(ds: seq<Contender>, lo: int, mid: int, hi: int)
    requires lo <= mid <= hi
    ensures ChipsBetween(ds, lo, hi) == ChipsBetween(ds, lo, mid) + ChipsBetween(ds, mid, hi)
    decreases hi - mid
  {
    if mid < hi {
      ChipsAdd(ds, lo, mid, hi - 1);
    }
  }

  lemma EligibleAgree(ds: seq<Contender>, a: int, b: int)
    requires forall d :: d in ds ==> (d.totalBet >= a <==> d.totalBet >= b)
    ensures Eligible(ds, a) == Eligible(ds, b)
  {
    if ds != [] {
      assert ds[0] in ds;
      EligibleAgree(ds[1..], a, b);
    }
  }

  /** Between two neighbouring tiers nobody drops out. */
  lemma LevelsAreFlat(ds: seq<Contender>, k: nat, level: int)
    requires k < |Tiers(ds)|
    requires Floor(Tiers(ds), k) < level <= Tiers(ds)[k]
    ensures Eligible(ds, level) == Eligible(ds, Tiers(ds)[k])
  {
    var ts := Tiers(ds);
    FloorIsNatural(ds, k);
    forall d | d in ds ensures d.totalBet >= level <==> d.totalBet >= ts[k] {
      if level <= d.totalBet < ts[k] {
        BetIsTier(ds, d);
        NothingBetween(ts, k, d.totalBet);
      }
    }
    EligibleAgree(ds, level, ts[k]);
  }

  lemma NothingBetween(ts: seq<int>, k: nat, x: int)
    requires Ascending(ts) && k < |ts| && x in ts && x < ts[k]
    ensures x <= Floor(ts, k)
  {
    var j :| 0 <= j < |ts| && ts[j] == x;
    assert j < k;
  }

  lemma FloorIsNatural(ds: seq<Contender>, k: nat)
    requires k <= |Tiers(ds)|
    ensures Floor(Tiers(ds), k) >= 0
    ensures k < |Tiers(ds)| ==> Floor(Tiers(ds), k) < Tiers(ds)[k]
  {
    if k > 0 {
      var d := TierIsBet(ds, Tiers(ds)[k - 1]);
    }
    if k < |Tiers(ds)| {
      var d := TierIsBet(ds, Tiers(ds)[k]);
    }
  }

  /** The width of a slice times the number of eligible contenders is its chip-by-chip content. */
  lemma {:induction false} SliceIsItsChips(ds: seq<Contender>, k: nat, width: nat, count: int)
    requires k < |Tiers(ds)| && count == |Eligible(ds, Tiers(ds)[k])|
    requires Floor(Tiers(ds), k) + width <= Tiers(ds)[k]
    ensures width * count == ChipsBetween(ds, Floor(Tiers(ds), k), Floor(Tiers(ds), k) + width)
  {
    if width > 0 {
      SliceIsItsChips(ds, k, width - 1, count);
      LevelsAreFlat(ds, k, Floor(Tiers(ds), k) + width);
      MulStep(width, count);
    }
  }

  lemma MulStep(n: int, count: int)
    ensures n * count == (n - 1) * count + count
  {
  }

  lemma TopTierTakesAll(ds: seq<Contender>)
    ensures ChipsBetween(ds, 0, Floor(Tiers(ds), |Tiers(ds)|)) == Staked(ds)
  {
    var ts := Tiers(ds);
    var top := Floor(ts, |ts|);
    FloorIsNatural(ds, |ts|);
    forall d | d in ds ensures d.totalBet <= top || d.totalBet <= 0 {
      if d.totalBet > 0 {
        BetIsTier(ds, d);
        var j :| 0 <= j < |ts| && ts[j] == d.totalBet;
      }
    }
    ChipsAreCappedStakes(ds, top);
    HighCapTakesAll(ds, top);
  }

  // ---------------------------------------------------------------------------------------------
  // Pots
  // ---------------------------------------------------------------------------------------------

  /** Chips in the pot that no contender bet: folded money, or nothing when the pot falls short. */
  function DeadMoney(gamePot: int, ds: seq<Contender>): int {
    Max0(gamePot - Staked(ds))
  }

  /** The slice of tier `k` told chip by chip: the chips of its levels, won by the best hands among those
      who paid for them. The first slice also gets `extra`. */
  function Slice(ds: seq<Contender>, extra: int, k: nat): Pot
    requires k < |Tiers(ds)|
  {
    Pot(ChipsBetween(ds, Floor(Tiers(ds), k), Tiers(ds)[k]) + (if k == 0 then extra else 0),
        Best(Eligible(ds, Tiers(ds)[k])))
  }

  function SlicesTo(ds: seq<Contender>, extra: int, k: nat): (r: seq<Pot>)
    requires k <= |Tiers(ds)|
    ensures |r| == k
  {
    if k == 0 then [] else SlicesTo(ds, extra, k - 1) + [Slice(ds, extra, k - 1)]
  }

  /** The side pots of a hand: one per tier, the dead money in the first. */
  function PotsByChips(gamePot: int, ds: seq<Contender>): seq<Pot> {
    if ds == [] || gamePot == 0 then [] else SlicesTo(ds, DeadMoney(gamePot, ds), |Tiers(ds)|)
  }

  lemma SliceAt(ds: seq<Contender>, extra: int, k: nat, i: nat)
    requires i < k <= |Tiers(ds)|
    ensures SlicesTo(ds, extra, k)[i] == Slice(ds, extra, i)
  {
    if i < k - 1 {
      SliceAt(ds, extra, k - 1, i);
    }
  }

  /** Adding to the first pot afterwards is the same. */
  lemma ExtraGoesFirst(ds: seq<Contender>, extra: int, k: nat)
    requires 0 < k <= |Tiers(ds)|
    ensures var plain := SlicesTo(ds, 0, k);
            SlicesTo(ds, extra, k) == plain[0 := plain[0].(amount := plain[0].amount + extra)]
  {
    if k > 1 {
      ExtraGoesFirst(ds, extra, k - 1);
      assert Slice(ds, extra, k - 1) == Slice(ds, 0, k - 1);
    }
  }

  /** `_determine_pot_winners` computes exactly the chip-by-chip pots. */
  method DeterminePotWinners(gamePot: int, ds: seq<Contender>) returns (pots: seq<Pot>)
    ensures pots == PotsByChips(gamePot, ds)
  {
    pots := [];
    if ds == [] || gamePot == 0 {
      return;
    }
    var tiers := Tiers(ds);
    var lastTier, calculated := 0, 0;
    for i := 0 to |tiers|
      invariant lastTier == Floor(tiers, i) && calculated == ChipsBetween(ds, 0, lastTier)
      invariant pots == SlicesTo(ds, 0, i)
    {
      var tier := tiers[i];
      var eligible := Eligible(ds, tier);
      var contribution := tier - lastTier;
      var potSize := contribution * |eligible|;
      calculated := calculated + potSize;
      NextSlice(ds, i, contribution, |eligible|, potSize);
      if potSize > 0 {
        var bestScore := BestScore(eligible);
        pots := pots + [Pot(potSize, WithScore(eligible, bestScore))];
      }
      lastTier := tier;
    }
    TopTierTakesAll(ds);
    var discrepancy := gamePot - calculated;
    if pots != [] {
      ExtraGoesFirst(ds, DeadMoney(gamePot, ds), |tiers|);
    }
    if discrepancy > 0 && pots != [] {
      pots := pots[0 := pots[0].(amount := pots[0].amount + discrepancy)];
    }
    // The source collapses the result when one tier gave more than one pot; it never does.
    assert !(|tiers| == 1 && |pots| > 1);
  }

  /** Somebody bet exactly the tier, so the slice is not empty; it holds the chips of its levels. */
  lemma NextSlice(ds: seq<Contender>, k: nat, width: int, count: int, potSize: int)
    requires k < |Tiers(ds)|
    requires width == Tiers(ds)[k] - Floor(Tiers(ds), k) && count == |Eligible(ds, Tiers(ds)[k])|
    requires potSize == width * count
    ensures Eligible(ds, Tiers(ds)[k]) != []
    ensures potSize > 0
    ensures Slice(ds, 0, k) == Pot(potSize, Best(Eligible(ds, Tiers(ds)[k])))
    ensures ChipsBetween(ds, 0, Tiers(ds)[k]) == ChipsBetween(ds, 0, Floor(Tiers(ds), k)) + potSize
  {
    var ts := Tiers(ds);
    var d := TierIsBet(ds, ts[k]);
    EligibleMembers(ds, ts[k], d);
    FloorIsNatural(ds, k);
    SliceIsItsChips(ds, k, width, count);
    MulPositive(width, count);
    ChipsAdd(ds, 0, Floor(ts, k), ts[k]);
  }

  lemma MulPositive(a: int, b: int)
    requires a > 0 && b > 0
    ensures a * b > 0
  {
  }

  /** What the pots say about single chips: the pot of tier `k` holds, besides the dead money, one chip per
      level from each contender who bet that much, and at every one of its levels its winners are exactly
      the eligible contenders whom no eligible contender beats. */
  lemma PotsRefineTheChipRule(gamePot: int, ds: seq<Contender>, k: nat, level: int, d: Contender)
    requires gamePot != 0 && k < |Tiers(ds)|
    requires Floor(Tiers(ds), k) < level <= Tiers(ds)[k]
    ensures |PotsByChips(gamePot, ds)| == |Tiers(ds)|
    ensures var pot := PotsByChips(gamePot, ds)[k];
            && pot.amount == ChipsBetween(ds, Floor(Tiers(ds), k), Tiers(ds)[k])
                             + (if k == 0 then DeadMoney(gamePot, ds) else 0)
            && pot.amount > 0
            && (d in pot.winners <==>
                  && d in ds && d.totalBet >= level
                  && forall e :: e in ds && e.totalBet >= level ==> e.score <= d.score)
  {
    var ts := Tiers(ds);
    var es := Eligible(ds, level);
    SliceAt(ds, DeadMoney(gamePot, ds), |ts|, k);
    FloorIsNatural(ds, k);
    var width, count := ts[k] - Floor(ts, k), |Eligible(ds, ts[k])|;
    NextSlice(ds, k, width, count, width * count);
    LevelsAreFlat(ds, k, level);
    BestMembers(es, d);
    EligibleMembers(ds, level, d);
    forall e ensures e in es <==> e in ds && e.totalBet >= level {
      EligibleMembers(ds, level, e);
    }
  }

  // ---------------------------------------------------------------------------------------------
  // Payouts
  // ---------------------------------------------------------------------------------------------

  /** The share of the winner at `index` when `amount` is divided among `n`: the first ones get the odd chips. */
  function ShareAt(amount: int, n: int, index: int): int
    requires n > 0
  {
    amount / n + (if index < amount % n then 1 else 0)
  }

  /** What `user` gets from the first `j` winners of `pot`. */
  function SharesTo(pot: Pot, j: nat, user: UserId): int
    requires j <= |pot.winners|
  {
    if j == 0 then 0
    else
      SharesTo(pot, j - 1, user) +
      (if pot.winners[j - 1].user == user then ShareAt(pot.amount, |pot.winners|, j - 1) else 0)
  }

  function Won(pot: Pot, user: UserId): int {
    if pot.amount > 0 && pot.winners != [] then SharesTo(pot, |pot.winners|, user) else 0
  }

  function Payout(pots: seq<Pot>, user: UserId): int {
    if pots == [] then 0 else Payout(pots[..|pots| - 1], user) + Won(pots[|pots| - 1], user)
  }

  function Get(payouts: map<UserId, int>, user: UserId): int {
    if user in payouts then payouts[user] else 0
  }

  lemma SharesAreNatural(amount: int, n: int, index: int)
    requires amount >= 0 && n > 0
    ensures ShareAt(amount, n, index) >= 0
  {
    assert amount / n >= 0;
  }

  /** `_process_showdown_results`: fills `payouts`, a dictionary whose missing entries count as 0. */
  method ProcessShowdown(pots: seq<Pot>) returns (payouts: map<UserId, int>)
    ensures forall user :: Get(payouts, user) == Payout(pots, user)
  {
    payouts := map[];
    for i := 0 to |pots|
      invariant forall user :: Get(payouts, user) == Payout(pots[..i], user)
    {
      var pot := pots[i];
      assert pots[..i + 1][..i] == pots[..i];
      if pot.amount > 0 && pot.winners != [] {
        payouts := PayWinners(pot, payouts);
      }
    }
    assert pots[..|pots|] == pots;
  }

  method PayWinners(pot: Pot, before: map<UserId, int>) returns (payouts: map<UserId, int>)
    requires pot.amount > 0 && pot.winners != []
    ensures forall user :: Get(payouts, user) == Get(before, user) + Won(pot, user)
  {
    var n := |pot.winners|;
    var baseShare, remainder := pot.amount / n, pot.amount % n;
    payouts := before;
    for index := 0 to n
      invariant forall user :: Get(payouts, user) == Get(before, user) + SharesTo(pot, index, user)
    {
      var winner := pot.winners[index].user;
      var winAmount := baseShare + (if index < remainder then 1 else 0);
      SharesAreNatural(pot.amount, n, index);
      if winAmount > 0 {
        payouts := payouts[winner := Get(payouts, winner) + winAmount];
      }
    }
  }

  // ---------------------------------------------------------------------------------------------
  // What is paid
  // ---------------------------------------------------------------------------------------------

  /** What all of `ds` get together. */
  function PaidTo(pots: seq<Pot>, ds: seq<Contender>): int {
    if ds == [] then 0 else Payout(pots, ds[0].user) + PaidTo(pots, ds[1..])
  }

  function WonBy(pot: Pot, ds: seq<Contender>): int {
    if ds == [] then 0 else Won(pot, ds[0].user) + WonBy(pot, ds[1..])
  }

  function SharesBy(pot: Pot, j: nat, ds: seq<Contender>): int
    requires j <= |pot.winners|
  {
    if ds == [] then 0 else SharesTo(pot, j, ds[0].user) + SharesBy(pot, j, ds[1..])
  }

  function SumOfShares(amount: int, n: int, j: nat): int
    requires n > 0
  {
    if j == 0 then 0 else SumOfShares(amount, n, j - 1) + ShareAt(amount, n, j - 1)
  }

  lemma SharesAddUp(amount: int, n: int, j: nat)
    requires n > 0 && amount >= 0
    ensures SumOfShares(amount, n, j) == j * (amount / n) + Min(j, amount % n)
  {
    if j > 0 {
      SharesAddUp(amount, n, j - 1);
      MulStep(j, amount / n);
    }
  }

  /** Dividing with odd chips loses nothing: the shares of all n winners are the whole amount, and an earlier
      winner gets as much as a later one or a single chip more. */
  lemma SplitIsExact(amount: int, n: int)
    requires n > 0 && amount >= 0
    ensures SumOfShares(amount, n, n) == amount
    ensures forall i, j :: 0 <= i <= j < n ==> 0 <= ShareAt(amount, n, i) - ShareAt(amount, n, j) <= 1
  {
    SharesAddUp(amount, n, n);
    assert amount == n * (amount / n) + amount % n;
  }

  /** A set of users without repetition gives each winner's share to exactly one of them. */
  lemma OneWinnerOneShare(pot: Pot, j: nat, ds: seq<Contender>)
    requires j < |pot.winners| && DistinctUsers(ds)
    ensures SharesBy(pot, j + 1, ds) ==
              SharesBy(pot, j, ds) +
              (if pot.winners[j].user in Users(ds) then ShareAt(pot.amount, |pot.winners|, j) else 0)
  {
    if ds != [] {
      OneWinnerOneShare(pot, j, ds[1..]);
    }
  }

  lemma AllSharesAreTaken(pot: Pot, j: nat, ds: seq<Contender>)
    requires j <= |pot.winners| && DistinctUsers(ds) && pot.winners != []
    requires forall w :: w in pot.winners ==> w.user in Users(ds)
    ensures SharesBy(pot, j, ds) == SumOfShares(pot.amount, |pot.winners|, j)
  {
    if j == 0 {
      NothingYet(pot, ds);
    } else {
      AllSharesAreTaken(pot, j - 1, ds);
      OneWinnerOneShare(pot, j - 1, ds);
      assert pot.winners[j - 1] in pot.winners;
    }
  }

  lemma NothingYet(pot: Pot, ds: seq<Contender>)
    ensures SharesBy(pot, 0, ds) == 0
  {
  }

  lemma WonIsShares(pot: Pot, ds: seq<Contender>)
    requires pot.amount > 0 && pot.winners != []
    ensures WonBy(pot, ds) == SharesBy(pot, |pot.winners|, ds)
  {
  }

  /** A pot whose winners are all in `ds` is paid out to the last chip. */
  lemma PotIsPaidOut(pot: Pot, ds: seq<Contender>)
    requires pot.amount > 0 && pot.winners != [] && DistinctUsers(ds)
    requires forall w :: w in pot.winners ==> w.user in Users(ds)
    ensures WonBy(pot, ds) == pot.amount
  {
    WonIsShares(pot, ds);
    AllSharesAreTaken(pot, |pot.winners|, ds);
    SplitIsExact(pot.amount, |pot.winners|);
  }

  // ---------------------------------------------------------------------------------------------
  // How often a contender wins, and what ties get
  // ---------------------------------------------------------------------------------------------

  ghost predicate UsersDiffer(ws: seq<Contender>) {
    forall i, j :: 0 <= i < j < |ws| ==> ws[i].user != ws[j].user
  }

  /** Whoever stands before another one in `ws` stands before that one in `ds`. */
  ghost predicate SameOrder(ws: seq<Contender>, ds: seq<Contender>) {
    forall i, j, a, b :: 0 <= i < j < |ws| && 0 <= a < |ds| && 0 <= b < |ds| && ws[i] == ds[a] && ws[j] == ds[b] ==>
      a < b
  }

  /** `ws` are among `ds`, in the same order, and nobody twice. */
  ghost predicate InOrder(ws: seq<Contender>, ds: seq<Contender>) {
    (forall w :: w in ws ==> w in ds) && UsersDiffer(ws) && SameOrder(ws, ds)
  }

  lemma UsersByIndex(ds: seq<Contender>)
    requires DistinctUsers(ds)
    ensures UsersDiffer(ds)
  {
    if ds != [] {
      UsersByIndex(ds[1..]);
      forall b | 1 <= b < |ds| ensures ds[0].user != ds[b].user {
        assert ds[b] == ds[1..][b - 1];
        MemberHasUser(ds[1..], ds[b]);
      }
      assert forall a :: 1 <= a < |ds| ==> ds[a] == ds[1..][a - 1];
    }
  }

  lemma OrderWithOneMore(ws: seq<Contender>, ds: seq<Contender>)
    requires ds != [] && UsersDiffer(ds) && InOrder(ws, ds[1..])
    ensures SameOrder(ws, ds)
  {
    forall i, j, a, b | 0 <= i < j < |ws| && 0 <= a < |ds| && 0 <= b < |ds| && ws[i] == ds[a] && ws[j] == ds[b]
      ensures a < b
    {
      assert ws[i] in ds[1..] && ws[j] in ds[1..];
      assert ds[a] == ds[1..][a - 1] && ds[b] == ds[1..][b - 1];
    }
  }

  lemma OrderWithFirst(ws: seq<Contender>, ds: seq<Contender>)
    requires ds != [] && UsersDiffer(ds) && (forall w :: w in ws ==> w in ds[1..]) && SameOrder(ws, ds)
    requires UsersDiffer(ws)
    ensures SameOrder([ds[0]] + ws, ds) && UsersDiffer([ds[0]] + ws)
  {
    var us := [ds[0]] + ws;
    forall j | 1 <= j < |us| ensures us[j] == ws[j - 1] && us[j].user != ds[0].user {
      assert ws[j - 1] in ds[1..];
    }
    forall i, j, a, b | 0 <= i < j < |us| && 0 <= a < |ds| && 0 <= b < |ds| && us[i] == ds[a] && us[j] == ds[b]
      ensures a < b
    {
      if i == 0 {
        assert a == 0 && b != 0;
      }
    }
  }

  lemma OneMoreInOrder(ws: seq<Contender>, ds: seq<Contender>)
    requires ds != [] && DistinctUsers(ds) && InOrder(ws, ds[1..])
    ensures InOrder(ws, ds) && InOrder([ds[0]] + ws, ds)
  {
    UsersByIndex(ds);
    OrderWithOneMore(ws, ds);
    OrderWithFirst(ws, ds);
  }

  lemma {:induction false} WinnersInOrder(ds: seq<Contender>, level: int, score: int)
    requires DistinctUsers(ds)
    ensures InOrder(WithScore(Eligible(ds, level), score), ds)
  {
    if ds != [] {
      WinnersInOrder(ds[1..], level, score);
      OneMoreInOrder(WithScore(Eligible(ds[1..], level), score), ds);
    }
  }

  /** The winners of every pot are contenders in the order of the list, each of them once. */
  lemma EveryWinnerOnce(gamePot: int, ds: seq<Contender>, k: nat)
    requires DistinctUsers(ds) && k < |PotsByChips(gamePot, ds)|
    ensures InOrder(PotsByChips(gamePot, ds)[k].winners, ds)
  {
    SliceAt(ds, DeadMoney(gamePot, ds), |Tiers(ds)|, k);
    var es := Eligible(ds, Tiers(ds)[k]);
    if es != [] {
      WinnersInOrder(ds, Tiers(ds)[k], BestScore(es));
    }
  }

  lemma {:induction false} OneShare(pot: Pot, j: nat, i: nat)
    requires i < |pot.winners| && j <= |pot.winners|
    requires UsersDiffer(pot.winners)
    ensures SharesTo(pot, j, pot.winners[i].user) ==
              if i < j then ShareAt(pot.amount, |pot.winners|, i) else 0
  {
    if j > 0 {
      OneShare(pot, j - 1, i);
      if j - 1 != i {
        assert if i < j - 1 then pot.winners[i].user != pot.winners[j - 1].user
               else pot.winners[j - 1].user != pot.winners[i].user;
      }
    }
  }

  /** Contenders who tie share a pot alike: the earlier in the list gets as much as the later or one chip more. */
  lemma TiesShareAlike(gamePot: int, ds: seq<Contender>, k: nat, a: nat, b: nat)
    requires DistinctUsers(ds) && k < |PotsByChips(gamePot, ds)| && a < b < |ds|
    requires ds[a] in PotsByChips(gamePot, ds)[k].winners && ds[b] in PotsByChips(gamePot, ds)[k].winners
    ensures var pot := PotsByChips(gamePot, ds)[k];
            0 <= Won(pot, ds[a].user) - Won(pot, ds[b].user) <= 1
  {
    var pot := PotsByChips(gamePot, ds)[k];
    EveryWinnerOnce(gamePot, ds, k);
    WinnersShareAlike(pot, ds, a, b);
  }

  lemma WinnersShareAlike(pot: Pot, ds: seq<Contender>, a: nat, b: nat)
    requires DistinctUsers(ds) && InOrder(pot.winners, ds) && a < b < |ds|
    requires ds[a] in pot.winners && ds[b] in pot.winners
    ensures 0 <= Won(pot, ds[a].user) - Won(pot, ds[b].user) <= 1
  {
    var i := PlaceOf(pot.winners, ds[a]);
    var j := PlaceOf(pot.winners, ds[b]);
    UsersByIndex(ds);
    OneShare(pot, |pot.winners|, i);
    OneShare(pot, |pot.winners|, j);
    if pot.amount > 0 {
      SplitIsExact(pot.amount, |pot.winners|);
    }
  }

  lemma PlaceOf(ws: seq<Contender>, d: Contender) returns (i: nat)
    requires d in ws
    ensures i < |ws| && ws[i] == d
  {
    i :| 0 <= i < |ws| && ws[i] == d;
  }

  lemma PaidIsPayoutPlusWon(pots: seq<Pot>, ds: seq<Contender>)
    requires pots != []
    ensures PaidTo(pots, ds) == PaidTo(pots[..|pots| - 1], ds) + WonBy(pots[|pots| - 1], ds)
  {
  }

  lemma MemberHasUser(ds: seq<Contender>, d: Contender)
    requires d in ds
    ensures d.user in Users(ds)
  {
  }

  lemma SliceIsPayable(ds: seq<Contender>, extra: int, k: nat)
    requires k < |Tiers(ds)| && extra >= 0
    ensures Slice(ds, extra, k).amount > 0 && Slice(ds, extra, k).winners != []
    ensures forall w :: w in Slice(ds, extra, k).winners ==> w.user in Users(ds)
  {
    var ts := Tiers(ds);
    var width, count := ts[k] - Floor(ts, k), |Eligible(ds, ts[k])|;
    NextSlice(ds, k, width, count, width * count);
    var es := Eligible(ds, ts[k]);
    BestMembers(es, es[0]);
    forall w | w in Best(es) ensures w.user in Users(ds) {
      BestMembers(es, w);
      EligibleMembers(ds, ts[k], w);
      MemberHasUser(ds, w);
    }
  }

  lemma SlicesArePaidOut(ds: seq<Contender>, extra: int, k: nat)
    requires DistinctUsers(ds) && extra >= 0 && k <= |Tiers(ds)|
    ensures PaidTo(SlicesTo(ds, extra, k), ds) ==
              ChipsBetween(ds, 0, Floor(Tiers(ds), k)) + (if k > 0 then extra else 0)
  {
    if k == 0 {
      NobodyPaid(ds);
    } else {
      var pots := SlicesTo(ds, extra, k);
      assert pots[..k - 1] == SlicesTo(ds, extra, k - 1);
      SlicesArePaidOut(ds, extra, k - 1);
      PaidIsPayoutPlusWon(pots, ds);
      SliceIsPayable(ds, extra, k - 1);
      PotIsPaidOut(pots[k - 1], ds);
      FloorIsNatural(ds, k - 1);
      ChipsAdd(ds, 0, Floor(Tiers(ds), k - 1), Tiers(ds)[k - 1]);
    }
  }

  lemma NobodyPaid(ds: seq<Contender>)
    ensures PaidTo([], ds) == 0
  {
  }

  lemma StakedMeansTiers(ds: seq<Contender>)
    ensures Staked(ds) >= 0
    ensures Staked(ds) > 0 <==> Tiers(ds) != []
  {
  }

  /** The payouts are the whole pot exactly when the pot is empty, or some contender bet something and the
      contenders did not bet more than the pot. */
  lemma PaysExactlyThePot(gamePot: int, ds: seq<Contender>)
    requires DistinctUsers(ds)
    ensures PaidTo(PotsByChips(gamePot, ds), ds) == gamePot <==>
              gamePot == 0 || 0 < Staked(ds) <= gamePot
  {
    StakedMeansTiers(ds);
    NobodyPaid(ds);
    if gamePot != 0 && ds != [] {
      SlicesArePaidOut(ds, DeadMoney(gamePot, ds), |Tiers(ds)|);
      TopTierTakesAll(ds);
    }
  }

  /** The defect behind the condition: the last player in the hand who has not bet yet, say after the only
      bettor folded, is paid nothing, and the pot is lost. */
  lemma LastPlayerWithoutABetGetsNothing(gamePot: int, user: UserId, score: int)
    requires gamePot > 0
    ensures var ds := [Contender(user, 0, score)];
            PotsByChips(gamePot, ds) == [] && PaidTo(PotsByChips(gamePot, ds), ds) == 0
  {
    assert Tiers([Contender(user, 0, score)][1..]) == [];
  }

  lemma UserNamesContender(ds: seq<Contender>, d: Contender, e: Contender)
    requires DistinctUsers(ds) && d in ds && e in ds && d.user == e.user
    ensures d == e
  {
    if d == ds[0] || e == ds[0] {
      if d != e {
        MemberHasUser(ds[1..], if d == ds[0] then e else d);
      }
    } else {
      UserNamesContender(ds[1..], d, e);
    }
  }

  lemma SharesAtMostAll(pot: Pot, j: nat, user: UserId)
    requires j <= |pot.winners| && pot.winners != [] && pot.amount >= 0
    ensures 0 <= SharesTo(pot, j, user) <= SumOfShares(pot.amount, |pot.winners|, j)
  {
    if j > 0 {
      SharesAtMostAll(pot, j - 1, user);
      SharesAreNatural(pot.amount, |pot.winners|, j - 1);
    }
  }

  lemma WonAtMostPot(pot: Pot, user: UserId)
    requires pot.amount >= 0
    ensures 0 <= Won(pot, user) <= pot.amount
  {
    if pot.winners != [] {
      SharesAtMostAll(pot, |pot.winners|, user);
      SplitIsExact(pot.amount, |pot.winners|);
    }
  }

  lemma LosersGetNothing(pot: Pot, j: nat, user: UserId)
    requires j <= |pot.winners| && forall w :: w in pot.winners ==> w.user != user
    ensures SharesTo(pot, j, user) == 0
  {
    if j > 0 {
      LosersGetNothing(pot, j - 1, user);
      assert pot.winners[j - 1] in pot.winners;
    }
  }

  /** Nobody wins a slice above their own bet. */
  lemma NothingAboveOnesBet(ds: seq<Contender>, extra: int, k: nat, d: Contender)
    requires DistinctUsers(ds) && d in ds && k < |Tiers(ds)| && d.totalBet < Tiers(ds)[k]
    ensures Won(Slice(ds, extra, k), d.user) == 0
  {
    var pot := Slice(ds, extra, k);
    forall w | w in pot.winners ensures w.user != d.user {
      BestMembers(Eligible(ds, Tiers(ds)[k]), w);
      EligibleMembers(ds, Tiers(ds)[k], w);
      if w.user == d.user {
        UserNamesContender(ds, d, w);
      }
    }
    LosersGetNothing(pot, |pot.winners|, d.user);
  }

  lemma CappedIsMonotonic(ds: seq<Contender>, low: int, high: int)
    requires low <= high
    ensures Capped(ds, low) <= Capped(ds, high)
  {
  }

  /** One more slice raises what a contender can have won by at most what it adds below their own bet. */
  lemma SliceWithinCap(ds: seq<Contender>, extra: int, k: nat, d: Contender)
    requires DistinctUsers(ds) && d in ds && k < |Tiers(ds)| && extra >= 0
    ensures 0 <= Won(Slice(ds, extra, k), d.user)
              <= Capped(ds, Min(Tiers(ds)[k], Max0(d.totalBet)))
                 - Capped(ds, Min(Floor(Tiers(ds), k), Max0(d.totalBet)))
                 + (if k == 0 then extra else 0)
  {
    var ts := Tiers(ds);
    FloorIsNatural(ds, k);
    if d.totalBet < ts[k] {
      NothingAboveOnesBet(ds, extra, k, d);
      CappedIsMonotonic(ds, Min(Floor(ts, k), Max0(d.totalBet)), Min(ts[k], Max0(d.totalBet)));
    } else {
      SliceIsPayable(ds, extra, k);
      WonAtMostPot(Slice(ds, extra, k), d.user);
      ChipsAreCappedStakes(ds, Floor(ts, k));
      ChipsAreCappedStakes(ds, ts[k]);
      ChipsAdd(ds, 0, Floor(ts, k), ts[k]);
    }
  }

  lemma PrefixPayoutIsCapped(ds: seq<Contender>, extra: int, k: nat, d: Contender)
    requires DistinctUsers(ds) && d in ds && k <= |Tiers(ds)| && extra >= 0
    ensures 0 <= Payout(SlicesTo(ds, extra, k), d.user)
              <= Capped(ds, Min(Floor(Tiers(ds), k), Max0(d.totalBet))) + (if k > 0 then extra else 0)
  {
    if k == 0 {
      NothingAtZero(ds);
    } else {
      var pots := SlicesTo(ds, extra, k);
      assert pots[..k - 1] == SlicesTo(ds, extra, k - 1);
      PrefixPayoutIsCapped(ds, extra, k - 1, d);
      SliceWithinCap(ds, extra, k - 1, d);
    }
  }

  /** Nobody wins more than their own bet's worth from each contender, plus the dead money; and nobody is
      paid a negative amount. */
  lemma PayoutIsCapped(gamePot: int, ds: seq<Contender>, d: Contender)
    requires DistinctUsers(ds) && d in ds
    ensures 0 <= Payout(PotsByChips(gamePot, ds), d.user) <= Capped(ds, Max0(d.totalBet)) + DeadMoney(gamePot, ds)
  {
    CappedIsMonotonic(ds, 0, Max0(d.totalBet));
    NothingAtZero(ds);
    if gamePot != 0 {
      var n := |Tiers(ds)|;
      PrefixPayoutIsCapped(ds, DeadMoney(gamePot, ds), n, d);
      CappedIsMonotonic(ds, Min(Floor(Tiers(ds), n), Max0(d.totalBet)), Max0(d.totalBet));
    }
  }

  lemma NoBetNoPayout(ds: seq<Contender>, extra: int, k: nat, d: Contender)
    requires DistinctUsers(ds) && d in ds && d.totalBet <= 0 && k <= |Tiers(ds)|
    ensures Payout(SlicesTo(ds, extra, k), d.user) == 0
  {
    if k > 0 {
      var pots := SlicesTo(ds, extra, k);
      assert pots[..k - 1] == SlicesTo(ds, extra, k - 1);
      NoBetNoPayout(ds, extra, k - 1, d);
      FloorIsNatural(ds, k - 1);
      NothingAboveOnesBet(ds, extra, k - 1, d);
    }
  }

  lemma OutsiderWinsNoSlice(ds: seq<Contender>, extra: int, k: nat, user: UserId)
    requires user !in Users(ds) && k < |Tiers(ds)| && extra >= 0
    ensures Won(Slice(ds, extra, k), user) == 0
  {
    SliceIsPayable(ds, extra, k);
    var pot := Slice(ds, extra, k);
    LosersGetNothing(pot, |pot.winners|, user);
  }

  lemma {:induction false} OutsiderGetsNothing(ds: seq<Contender>, extra: int, k: nat, user: UserId)
    requires user !in Users(ds) && k <= |Tiers(ds)| && extra >= 0
    ensures Payout(SlicesTo(ds, extra, k), user) == 0
  {
    if k > 0 {
      assert SlicesTo(ds, extra, k)[..k - 1] == SlicesTo(ds, extra, k - 1);
      OutsiderGetsNothing(ds, extra, k - 1, user);
      OutsiderWinsNoSlice(ds, extra, k - 1, user);
    }
  }

  lemma OnlyOneIsPaid(pots: seq<Pot>, ds: seq<Contender>, d: Contender)
    requires DistinctUsers(ds)
    requires forall e :: e in ds && e != d ==> Payout(pots, e.user) == 0
    ensures PaidTo(pots, ds) == if d in ds then Payout(pots, d.user) else 0
  {
    if ds != [] {
      assert ds[0] in ds;
      OnlyOneIsPaid(pots, ds[1..], d);
      if d == ds[0] && d in ds[1..] {
        MemberHasUser(ds[1..], d);
      }
    }
  }

  /** A contender who alone bet anything is paid the whole pot. */
  lemma LoneBettorTakesAll(gamePot: int, ds: seq<Contender>, d: Contender)
    requires DistinctUsers(ds) && d in ds && 0 < d.totalBet && Staked(ds) <= gamePot
    requires forall e :: e in ds && e != d ==> e.totalBet <= 0
    ensures Payout(PotsByChips(gamePot, ds), d.user) == gamePot
  {
    BetIsTier(ds, d);
    StakedMeansTiers(ds);
    PaysExactlyThePot(gamePot, ds);
    forall e | e in ds && e != d ensures Payout(PotsByChips(gamePot, ds), e.user) == 0 {
      NoBetNoPayout(ds, DeadMoney(gamePot, ds), |Tiers(ds)|, e);
    }
    OnlyOneIsPaid(PotsByChips(gamePot, ds), ds, d);
  }
}
