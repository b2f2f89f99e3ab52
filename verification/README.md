# Verified models of the poker bot's hard parts

The bot runs no-limit poker tables in chats: player actions arrive concurrently, game documents and wallets live
in Redis, and a lock manager keeps the pieces apart. This project models the state machines behind that in Dafny and
proves what each of them keeps, over whole runs and for every choice the environment can make. Where the code does not
keep what it promises, the code is modelled as it is, a lemma shows an input on which it fails, and another says
exactly when it holds.

`dafny verify dfyconfig.toml` checks everything. One file is one module:

| file | models |
|---|---|
| `SidePots.dfy` | side pots, the split of each pot, the payouts |
| `HandAccounting.dfy` | blinds, betting actions, streets and payouts of one hand as movements between wallets and pot |
| `BetRetries.dfy` | the engine's `process_bet`, which repeats its wallet call on a version conflict |
| `ConcurrentActions.dfy` | any number of clients that load, compute and compare-and-set one table document |
| `Streets.dfy` | the street machine, the deck, and whose turn it is |
| `ReadWriteLock.dfy` | the table reader/writer lock, one program counter per task, any number of tasks |
| `WaitGraph.dfy` | the depth-first cycle finder over the wait-for graph |
| `LockHierarchy.dfy` | the ascending-order check, runs of tasks that take locks and tables under it, and what the deadlock detector sees of them |
| `HierarchyDeadlocks.dfy` | which of these runs deadlock, and what the detector misses |
| `ActionLock.dfy` | token locks with expiry |
| `RetryBudget.dfy` | how one deadline is sliced over several lock attempts |
| `WalletService.dfy` | chip reservations, their scripts, rollbacks and watchdogs, interleaved at every await, with calls that fail before or after their effect |
| `BettingHandler.dfy` | the two-phase commit of a bet around them |
| `Cache.dfy` | the two-layer cache |
| `RateLimiter.dfy` | the sliding-window limiter |
| `CallbackMemory.dfy` | the memory of processed callback ids |
| `DealerRotation.dfy` | the dealer button and the seats of the blinds |
| `Basics.dfy` | shared small notions and facts about remainders |

Code that changes objects step by step is a class or a method with loops, proved equal to a function of the old state;
the properties are lemmas about those functions. Clocks, random readings, lock outcomes, network faults and the
answers of Redis and of wallets are parameters, so a lemma about them holds for every run of the environment. Redis is
an atomic map. Floating-point times and delays are `real`.

Results that correct the documentation or show a defect:

- The hierarchy check reads two undefined names (`context` and `new_level`, `pokerapp/lock_manager.py:4027`), so as
  written it raises as soon as a hierarchy lock is requested under another one. Both versions are modelled.
- Also the intended check does not prevent deadlock, as its documentation promises: the read and the write key of a
  table lie at the two ends of the hierarchy, but they are the two sides of one lock. A reader that upgrades waits for
  itself (`pokerapp/lock_manager.py:1144-1149`); so does a writer that reads, since a reader is checked only after its
  wait (`pokerapp/lock_manager.py:1061`), and a writer that writes again, which the check lets pass as a re-entry
  (`pokerapp/lock_manager.py:1143`). A reader that reads again waits for a writer that waits for it. With a pot, player
  or deck lock held while a table is asked for, two tasks cross. Runs inside the hierarchy are free of deadlock, and
  can always be finished, if and only if tables are asked for with no hierarchy lock held. The detector sees none of
  these deadlocks, because waits for tables are not registered; its own graph never has a cycle inside the hierarchy.
  With a lock outside the hierarchy two tasks deadlock before its eyes.
- A table reader that fails between being counted and entering its body (`pokerapp/lock_manager.py:1021-1071`) stays
  counted, and no writer of that table proceeds afterwards. From any state, a waiting writer can still come to write if
  and only if this has not happened.
- When no contender has bet, the pot is paid to nobody (`pokerapp/game_engine.py:4929-4933`); the blinds of players who
  fold behind a player who has not bet are lost. The engine's own check action does not ask whether there is a bet to
  call, so a play can get there.
- The payouts are credited one after the other and nobody catches what a wallet call raises
  (`pokerapp/game_engine.py:4754-4760`): the winner in question may be unpaid, everybody behind is, and the pot stays.
- `authorize` debits the wallet and then notes the amount (`pokerapp/pokerbotmodel.py:2891-2894`). When the second call
  fails, a refused action has cost its chips.
- `process_bet` debits the wallet again after every version conflict (`pokerapp/game_engine.py:2176-2233`).
- Rolling back a reservation that is already rolled back credits it again (`pokerapp/wallet_service.py:107-109`). The
  betting handler does so when a lock attempt outlives the reservation, and the watchdog does when it wakes while the
  handler's rollback, which cancels it only at its end (`pokerapp/wallet_service.py:396-399`), is under way. When no
  rollback fails or is stopped, a failed bet is repaid twice exactly in these two cases.
- Two reservations of one account that both read the balance before either debits overdraw it
  (`pokerapp/wallet_service.py:178-218`).
- The turn is counted among the seated players but looked up among the seats, so an empty seat misleads it, whoever has
  the button (`pokerapp/pokerbotmodel.py:2642-2648`, `pokerapp/pokerbotmodel.py:903`).
- A cache write with a time to live that is not positive leaves the older shared value in place, and it is read again
  once it has outlived the entry of the first layer.
- The callback memory never forgets its first id and, once it has overflowed, forgets an id one place early
  (`pokerapp/entities.py:193`).
- The pruned list of the sliding-window limiter decides like the whole history unless a reading of the clock ahead of a
  later one dropped a time that is needed again. A clock that does not go back is enough for its bound.

## Model

| member | source | states |
|---|---|---|
| SidePots.DeterminePotWinners | pokerapp/game_engine.py:4923-5018 | the tier loop computes exactly the pots of the chip-by-chip rule: one per tier, dead money in the first; the collapsing branch at the end is dead |
| SidePots.PotsRefineTheChipRule | pokerapp/game_engine.py:4939-4963 | every pot is positive, holds one chip per level of its tier from each contender who bet that much, and at each of those levels is won by exactly the unbeaten ones among them |
| SidePots.SliceIsItsChips | pokerapp/game_engine.py:4940-4945 | a tier's width times its number of eligible contenders is the number of chips at its levels |
| SidePots.TopTierTakesAll | pokerapp/game_engine.py:4939-4965 | up to the top tier the levels hold all that the contenders bet |
| SidePots.ProcessShowdown | pokerapp/game_engine.py:4690-4706 | the accumulated payouts give every user the sum of the shares of the pots |
| SidePots.PayWinners | pokerapp/game_engine.py:4694-4702 | one pot adds to every user what that user wins of it and nothing else |
| SidePots.SplitIsExact | pokerapp/game_engine.py:4697-4700 | base shares and odd chips add up to the pot, and an earlier winner's share exceeds a later one's by at most one chip |
| SidePots.PotIsPaidOut | pokerapp/game_engine.py:4694-4702 | distinct winners together receive exactly the pot |
| SidePots.EveryWinnerOnce | pokerapp/game_engine.py:4951-4959 | the winners of every pot are contenders in their order, each of them once |
| SidePots.TiesShareAlike | pokerapp/game_engine.py:4694-4702 | of two contenders who tie for a pot the earlier one gets as much of it as the later one, or one chip more |
| SidePots.PaysExactlyThePot | pokerapp/game_engine.py:4929-4967 | the payouts are the whole pot if and only if it is empty, or some contender bet and the contenders did not bet more than the pot |
| SidePots.LastPlayerWithoutABetGetsNothing | pokerapp/game_engine.py:4929-4933 | an input on which the pot goes to nobody |
| SidePots.PayoutIsCapped | pokerapp/game_engine.py:4939-4967 | no contender is paid more than the sum of the others' bets up to the own bet, plus the dead money, nor less than nothing |
| SidePots.LoneBettorTakesAll | pokerapp/game_engine.py:4939-4967 | a contender who alone has bet is paid the whole pot |
| SidePots.OutsiderGetsNothing | pokerapp/game_engine.py:4942-4962 | a user who does not contend is paid nothing |
| HandAccounting.Player.Authorize | pokerapp/pokerbotmodel.py:2824-2894 | a wallet that holds the amount is debited by exactly it, unless the call is lost, and the answer is no also when the call fails after the debit |
| HandAccounting.Game.ExecutePlayerAction | pokerapp/game_engine.py:2305-2400 | the new table, player by player, of fold, check, call, raise and refused actions |
| HandAccounting.Game.RaiseBy | pokerapp/game_engine.py:2347-2393 | a raise pays call and raise together, lifts the street's bet, and reopens the betting for the other active players |
| HandAccounting.Game.SetPlayerBlind | pokerapp/pokerbotmodel.py:2702-2732 | a blind is paid in full, or with all that is left, and then the player is all in; a call that fails otherwise, before or after its debit, stops the hand |
| HandAccounting.Game.SetBlinds | pokerapp/pokerbotmodel.py:2685-2694 | both blinds, the small one first, and the street's bet after them; the answer says whether both were paid |
| HandAccounting.StartHandAccounting | pokerapp/pokerbotmodel.py:2654-2732 | a hand that starts has kept every chip; one that does not start has lost exactly what the blind's call debited before it failed |
| HandAccounting.Game.StartStreet | pokerapp/matchmaking_service.py:254-292 | street bets and marks are cleared, pot and totals stay |
| HandAccounting.Game.Reset | pokerapp/entities.py:197-210 | a new hand starts without pot and bets and with the wallets as they were |
| HandAccounting.Game.DistributePayouts | pokerapp/game_engine.py:4747-4760 | the wallets of the winners grow by their payouts in the order of the seats, up to the first call that raises, and nothing else changes |
| HandAccounting.FailedCreditEndsThePayouts | pokerapp/game_engine.py:4754-4760 | the first payout whose call fails is paid only if the call failed late; those before it are paid and nobody behind it is |
| HandAccounting.ContendersInSeatOrder | pokerapp/game_engine.py:4361-4401 | everybody who has not folded contends with the bets of the hand and the own score, the all-in players too, in the order of the seats, and nobody else does |
| HandAccounting.ActionAccounting | pokerapp/game_engine.py:2307-2395 | pot and bets always move together, a refused action changes nothing but what a call that failed late debited, and wallets plus pot stay constant if and only if no call failed late and the player has a wallet or puts nothing in |
| HandAccounting.ActionMeansWhatItSays | pokerapp/game_engine.py:2307-2395 | an accepted call matches the street's bet, a raise tops it by its amount and makes every other active player act again, a fold only folds, and nobody else is touched |
| HandAccounting.ActionAcceptedExactlyWhen | pokerapp/game_engine.py:2305-2400 | a fold and a check are always accepted, a call if there is nothing to call or the wallet pays it, a raise if its amount is positive and the wallet pays it together with the call, and nothing else is |
| HandAccounting.ActionMovesBetsTogether | pokerapp/game_engine.py:2305-2400 | what an action puts in counts for the street, for the hand and for the pot alike, and comes out of the wallet; only a raise makes its player the one with whom the betting ends |
| HandAccounting.StreetStartsAfresh | pokerapp/matchmaking_service.py:254-292 | on a new street nobody has acted, a call costs nothing, a raise costs what it says, and pot, bets of the hand and wallets are as they were |
| HandAccounting.HandStartsAfresh | pokerapp/entities.py:197-210 | a new hand starts without pot and bets, with everybody in it, nobody having acted, and the wallets as they were |
| HandAccounting.BlindMeansWhatItSays | pokerapp/pokerbotmodel.py:2702-2732 | a posted blind is paid, or all that is left and the player is all in, and nobody else is touched; it is not posted if and only if the wallet call that it comes down to fails |
| HandAccounting.StartedHandMeansWhatItSays | pokerapp/pokerbotmodel.py:2654-2694 | a hand that starts has the two blinds in the pot and nothing else, the big blind as the street's bet, and its player as the one with whom the betting ends |
| HandAccounting.ChipsAreAccountedFor | pokerapp/game_engine.py:2307-2395 | from the blinds on, whatever the players do and however the wallet calls go, the pot is the sum of the bets, and wallets plus pot hold what the wallets held before the hand less what failing calls debited |
| HandAccounting.ChipsAreConservedExactlyWhen | pokerapp/pokerbotmodel.py:2891-2894 | they hold exactly that if and only if no wallet call fails after its debit |
| HandAccounting.ShowdownAccounting | pokerapp/game_engine.py:4668-4760 | the showdown credits the wallets with at most the whole pot when some contender bet, and with nothing otherwise, and with exactly that if and only if every credit of a payout takes effect |
| HandAccounting.SettleHand | pokerapp/game_engine.py:4395-4401 | the same carried out on the objects; the pot is cleared unless a wallet call raised, and then the wallets have all that is due |
| HandAccounting.WholeHandConservesChips | pokerapp/game_engine.py:4747-4760 | after any play and the payouts the wallets hold what they held before the hand if and only if no wallet call failed after its debit, every credit of a payout takes effect, and the pot was empty or some contender had bet |
| HandAccounting.BlindsCanBeLost | pokerapp/game_engine.py:2307-2325 | for any three players and any blinds there is a play after which the blinds belong to a single contender who has not bet |
| BetRetries.ProcessBet | pokerapp/game_engine.py:2095-2268 | the retry loop, attempt by attempt: wallet, saved game and answer, also for saves that raise before or after they take effect, and for a player without a wallet |
| BetRetries.NothingIsFree | pokerapp/game_engine.py:2176-2233 | the wallet of a player who has one never pays less than the table gains |
| BetRetries.PaidExactlyWhenFirstAttemptSettles | pokerapp/game_engine.py:2176-2233 | it pays exactly what the table gains if and only if the first attempt does not debit and then conflict, or fail unsaved |
| BetRetries.AnswerOfTheFirstThatDecides | pokerapp/game_engine.py:2095-2268 | the first attempt that does not end in a conflict gives the answer: yes if and only if it has its game, places the bet and saves it |
| BetRetries.NoAnswerExactlyWhenAllRepeat | pokerapp/game_engine.py:2095-2268 | the retries run out if and only if every attempt ends in a conflict |
| BetRetries.BetSucceedsExactlyWhen | pokerapp/game_engine.py:2095-2268 | `process_bet` says yes if and only if the amount is positive and some attempt places the bet and saves it, after others that all ended in a conflict |
| ConcurrentActions.TableState.ApplyPlayerAction | pokerapp/game_engine.py:1849-1884 | the new document of each action, or none when the chips do not suffice |
| ConcurrentActions.TableState.UpdatePotFromBets | pokerapp/game_engine.py:1894-1901 | all bets move into the pot |
| ConcurrentActions.TableState.AdvanceToNextPlayer | pokerapp/game_engine.py:1924-1943 | the turn goes to the next player who has not folded |
| ConcurrentActions.TableState.IsBettingRoundComplete | pokerapp/game_engine.py:1903-1922 | the round is complete exactly when at most one player is left, or all have acted and matched the bet or are out of chips |
| ConcurrentActions.PrepareAction | pokerapp/game_engine.py:1737-1785 | what a request makes of the document it loaded |
| ConcurrentActions.StateStore.SaveGameState | pokerapp/game_engine.py:140-152 | the script stores the document and the next version exactly when the stored version is the expected one |
| ConcurrentActions.ActionMeansWhatItSays | pokerapp/game_engine.py:1829-1884 | a call matches the current bet, a raise becomes it, all in leaves no chips, only a fold folds, nobody else is touched, and an action is refused exactly for want of chips |
| ConcurrentActions.TurnPassesToTheNearest | pokerapp/game_engine.py:1924-1943 | the turn passes to the nearest player behind who has not folded, and stays only when everybody has |
| ConcurrentActions.AcceptedExactlyWhen | pokerapp/game_engine.py:1737-1788 | a request is accepted if and only if its player has not acted and has the chips for its call or raise, which never is a folded player although that is only checked on an earlier copy |
| ConcurrentActions.AcceptedActionMeansWhatItSays | pokerapp/game_engine.py:1737-1785 | an accepted request does the action of its player and of nobody else, moves the bets to the pot exactly when a call, raise or all in leaves at most one player or everybody matched or out of chips, and passes the turn to the nearest player behind who has not folded |
| ConcurrentActions.BeginAdmitsExactlyWhen | pokerapp/game_engine.py:1722-1735 | the check before the locks admits exactly the requests of seated players who have not folded, with a positive amount for a raise |
| ConcurrentActions.SaveSucceedsExactlyWhenNobodyElseSaved | pokerapp/game_engine.py:140-152 | in every run a save succeeds if and only if no other one has succeeded since its document was loaded, and then it stores what its request makes of that document |
| ConcurrentActions.SaveNumbersTheVersions | pokerapp/game_engine.py:140-152 | a save is accepted if and only if its document carries the version after the stored one, and is then stored under it |
| ConcurrentActions.UndisturbedRequestIsServed | pokerapp/game_engine.py:1709-1796 | a request that nobody disturbs is admitted, prepared and saved as the next version if it is acceptable, and refused without a trace otherwise |
| ConcurrentActions.ProcessKeepsGood | pokerapp/game_engine.py:1737-1788 | an accepted action keeps all chips, leaves nobody in debt and no bet above the current one |
| ConcurrentActions.ActionsAreSerialisable | pokerapp/game_engine.py:1709-1796 | however many clients interleave, the stored document is that of the successful requests alone, one after another in version order |
| ConcurrentActions.StoredTablesStayGood | pokerapp/game_engine.py:1829-1901 | every stored document of every run keeps the chips of the first and the bounds on chips and bets |
| Streets.Game.ProgressStage | pokerapp/matchmaking_service.py:294-379 | the loop ends and does what the street function says; the branch for a missing player is dead |
| Streets.Game.FindNextActivePlayerIndex | pokerapp/pokerbotmodel.py:2642-2648 | the search around the table |
| Streets.Game.AddCardsToTable | pokerapp/matchmaking_service.py:569-584 | up to the given number of cards go from the end of the deck to the board |
| Streets.Game.DivideCards | pokerapp/matchmaking_service.py:403-425 | two cards to each seated player from the end of the deck, refilled when it runs out |
| Streets.StreetMachine | pokerapp/matchmaking_service.py:294-379 | the stage goes on if and only if two contenders, a player who can bet and a further street are left, then exactly one street on, with cleared bets, the turn at the next active player behind the dealer, and no showdown; otherwise the hand is finalised exactly once, at the river unless one contender is left; outside a round nothing is finalised |
| Streets.StageMeansWhatItSays | pokerapp/matchmaking_service.py:294-379 | flop, turn and river come in this order with three cards, one and one from the end of the deck, or all that are missing when nobody can bet; with one contender left nothing changes but the end of the hand; the button stays |
| Streets.WhoIsLeft | pokerapp/matchmaking_service.py:294-379 | at most one contender is left if and only if no two players on the seats are active or all in, and somebody can bet if and only if somebody is active |
| Streets.NewRoundClears | pokerapp/matchmaking_service.py:254-316 | a new round clears every player's bet and mark and nothing else |
| Streets.NextActiveIsNearest | pokerapp/pokerbotmodel.py:2642-2648 | the search returns the active player nearest after the start, and none exactly when there is none |
| Streets.TurnIsRightExactlyWhenPacked | pokerapp/pokerbotmodel.py:2642-2648 | for every dealer at the table and every state of the players the turn lands on the seat of the player who can bet and sits nearest behind the dealer, if and only if no empty seat lies before an occupied one |
| Streets.ProgressKeepsReady | pokerapp/matchmaking_service.py:313-379 | a stage keeps deck, board and hands a partition of the deck, never takes back a board card, and leaves as many on the board as the street has |
| Streets.ShowsTheTop | pokerapp/matchmaking_service.py:581-584 | the board grows by the top of the deck, card by card |
| Streets.DivideDeals | pokerapp/matchmaking_service.py:403-425 | with two cards for everybody the deal splits the deck into hands and rest |
| Streets.DealGivesTwoEach | pokerapp/matchmaking_service.py:403-425 | every player gets two cards and nothing else about anybody changes, also when the deck is refilled on the way |
| Streets.DealsTheTop | pokerapp/matchmaking_service.py:403-425 | the hands are the top of the deck, two by two in seat order |
| Streets.DealIsFairExactlyWithEnoughCards | pokerapp/matchmaking_service.py:403-425 | the hands come from the one deck if and only if it holds two cards for everybody |
| Streets.WholeHand | pokerapp/matchmaking_service.py:294-379 | whatever the betting does, the hand is finalised once when it ends and not before, with the partition kept and five board cards when two contenders are left |
| Streets.HandFromTheDeal | pokerapp/matchmaking_service.py:403-425 | 2n + 5 cards are enough for a whole hand of n players |
| Streets.NoCardTwice | pokerapp/matchmaking_service.py:403-425 | with distinct cards none is in two places |
| ReadWriteLock.RWLockState.TryEnterRead | pokerapp/lock_manager.py:1014-1027 | the critical section that counts a reader or tells it to wait |
| ReadWriteLock.RWLockState.ExitRead | pokerapp/lock_manager.py:1076-1083 | the critical section that ends a read |
| ReadWriteLock.RWLockState.MarkWriterWaiting | pokerapp/lock_manager.py:961-964 | the critical section that announces a writer |
| ReadWriteLock.RWLockState.UnmarkWriterWaiting | pokerapp/lock_manager.py:966-974 | the critical section that withdraws a writer |
| ReadWriteLock.RWLockState.BeginWrite | pokerapp/lock_manager.py:1169-1171 | the critical section that starts a write |
| ReadWriteLock.RWLockState.EndWrite | pokerapp/lock_manager.py:1187-1192 | the critical section that ends a write |
| ReadWriteLock.RWLockState.RunSection | pokerapp/lock_manager.py:1004-1211 | run on the object, the critical section at which a task stands does what the step of the protocol does |
| ReadWriteLock.RunKeepsInv | pokerapp/lock_manager.py:1004-1211 | every state of every run: locks have the owners the program counters say, the counters count the tasks, and a writer that saw no readers excludes them |
| ReadWriteLock.WriterIsAlone | pokerapp/lock_manager.py:1140-1192 | a task that writes, or has seen that it may, is alone: no counted reader and no other writer, with or without priority |
| ReadWriteLock.NoLostWakeup | pokerapp/lock_manager.py:961-974 | the event is set if and only if no writer is marked, a reader that is told to wait finds it cleared, and one asleep goes on exactly when no writer is marked |
| ReadWriteLock.ClampsNeverBite | pokerapp/lock_manager.py:966-1077 | the counters only ever drop from a positive value |
| ReadWriteLock.ReadersDoNotOvertake | pokerapp/lock_manager.py:1014-1025 | with writer priority the reader count never rises while a writer is marked |
| ReadWriteLock.ReaderIsHeldUpExactlyWhen | pokerapp/lock_manager.py:1014-1027 | in every run a reader is told to wait if and only if some writer holds the lock or, with writer priority, is marked |
| ReadWriteLock.WriterPassesExactlyWhen | pokerapp/lock_manager.py:1151-1171 | in every run a writer that looks for readers goes on if and only if no task is counted |
| ReadWriteLock.CallsLeadToTheirBody | pokerapp/lock_manager.py:1004-1211 | unless it fails, a call to read leads to the reader's body and a call to write to the writer's, and nobody else's step moves it |
| ReadWriteLock.SomeoneCanMove | pokerapp/lock_manager.py:1004-1211 | while some task is under way, some task under way can take its next step, be it one more round of a writer's polling |
| ReadWriteLock.LeakedReaderStarvesWriters | pokerapp/lock_manager.py:1021-1071 | a reader that fails between its count and its body stays counted, and no writer passes from then on |
| ReadWriteLock.WriterCanEnterExactlyWhenNobodyLeaked | pokerapp/lock_manager.py:1139-1171 | from every state of every run a task that has not called yet, or waits to write, can still come to write if and only if no counted reader has failed before its body |
| ReadWriteLock.ReaderCanAlwaysEnter | pokerapp/lock_manager.py:1004-1071 | from every state of every run a task that has not called yet, or waits to read, can still come to read, whoever has leaked, because the writers before it pass or give up |
| ReadWriteLock.AllCanFinishExactlyWhenNobodyLeaked | pokerapp/lock_manager.py:1004-1211 | under the same condition, and only then, all tasks can still finish |
| WaitGraph.DetectCycles | pokerapp/lock_manager.py:4450-4477 | something is reported if and only if the graph has a directed cycle, every report is a closed walk along its edges that meets no task twice, and every cycle goes along an edge that closes a reported one, so that separate deadlocks are reported separately |
| WaitGraph.CycleFinder.Dfs | pokerapp/lock_manager.py:4458-4471 | the search ends, visits its node, and leaves stack and reports in order |
| WaitGraph.CyclesCrossBackEdges | pokerapp/lock_manager.py:4450-4477 | when nodes are finished in an order where each waits only for earlier ones, but for some edges, every cycle goes along one of these |
| LockHierarchy.PassesExactlyWhenAscending | pokerapp/lock_manager.py:3992-4074 | a request passes if and only if it is outside the hierarchy, re-enters a held lock, or lies strictly above all hierarchy locks held; as written it passes only outside the hierarchy or without any hierarchy lock held |
| LockHierarchy.LevelsOfTheHierarchy | pokerapp/lock_manager.py:85-118 | for any ids the hierarchy is, from bottom to top, reading a table, a player, a pot, a deck, writing a table; the locks of a betting round, a stage, a chat and a wallet are outside it |
| LockHierarchy.LocksExclude | pokerapp/lock_manager.py:1004-1211 | in every run, inside the hierarchy or not, no lock is recorded by two tasks, and while a task writes a table nobody else writes it or is counted as its reader |
| LockHierarchy.RefusedReaderStarvesWriters | pokerapp/lock_manager.py:1014-1149 | a reader that the check refuses after its wait stays counted for the rest of the run, and no writer of the table is ever through with its readers |
| LockHierarchy.GivingUpUndoesAsking | pokerapp/lock_manager.py:1014-1211 | a request that is given up leaves nothing behind |
| LockHierarchy.GivingUpUndoesSeizing | pokerapp/lock_manager.py:1140-1211 | nor does one of a writer that has the lock already and waits for the readers |
| LockHierarchy.ReleasingUndoesTaking | pokerapp/lock_manager.py:2757-3063 | a free lock is got by asking for it, and releasing it leaves everything as it was |
| LockHierarchy.EndUndoesReading | pokerapp/lock_manager.py:1004-1083 | so does the end of a read that the check lets in |
| LockHierarchy.EndUndoesWriting | pokerapp/lock_manager.py:1114-1211 | and the end of a write of a table without readers |
| LockHierarchy.HolderLookup | pokerapp/lock_manager.py:3774-3777 | every recorded key maps to a task that recorded it |
| LockHierarchy.DetectDeadlock | pokerapp/lock_manager.py:3750-3799 | the graph has edges only from tasks that wait in `acquire` to others that recorded the key, and has the edge whenever exactly one task did; cycles are reported if and only if it has one |
| LockHierarchy.RunKeepsWaitsUpward | pokerapp/lock_manager.py:3992-4074 | in every run inside the hierarchy a task waiting in `acquire` waits for a lock above all that it has recorded, table sides included |
| LockHierarchy.DetectorGraphIsAcyclic | pokerapp/lock_manager.py:3750-3799 | in every run inside the hierarchy every graph the detector can build is without a cycle |
| LockHierarchy.BettingIsOutside | pokerapp/lock_manager.py:4003-4009 | the betting-round lock is outside the hierarchy |
| HierarchyDeadlocks.BlockedExactlyWhenNoStep | pokerapp/lock_manager.py:1014-1149 | a waiting task has no next step if and only if some task keeps it waiting, be it the task itself |
| HierarchyDeadlocks.DeadlockLasts | pokerapp/lock_manager.py:1014-1149 | tasks that keep each other waiting stay so until one of them gives up |
| HierarchyDeadlocks.HierarchyIsDeadlockFreeExactlyWhen | pokerapp/lock_manager.py:85-118 | runs inside the hierarchy that hold only given locks when they ask for a table are free of deadlock if and only if none of these is a hierarchy lock |
| HierarchyDeadlocks.EverybodyFinishesExactlyWhen | pokerapp/lock_manager.py:85-118 | under the same condition, and only then, from every state of every such run all waits can still end and all locks be given back without anybody giving up |
| HierarchyDeadlocks.UpgradeDeadlocks | pokerapp/lock_manager.py:1114-1149 | a reader that asks to write its table passes the check and waits for itself |
| HierarchyDeadlocks.ReadingWhileWritingDeadlocks | pokerapp/lock_manager.py:1014-1061 | a writer that asks to read its table waits for itself before anything is checked |
| HierarchyDeadlocks.WritingAgainDeadlocks | pokerapp/lock_manager.py:1114-1143 | a writer that asks to write its table again passes the check and waits for its own lock |
| HierarchyDeadlocks.ReadingAgainDeadlocks | pokerapp/lock_manager.py:1014-1027 | with writer priority a reader that asks to read its table again and a writer waiting for the end of the readers deadlock |
| HierarchyDeadlocks.CrossingDeadlocks | pokerapp/lock_manager.py:1114-1149 | with any lock strictly between the two sides, a task that holds it and asks to write a table and a reader of the table that asks for it both go up and deadlock |
| HierarchyDeadlocks.DetectorMissesTableDeadlocks | pokerapp/lock_manager.py:3750-3799 | for every hierarchy lock held while a table is asked for some run deadlocks and no graph of the detector has a cycle |
| HierarchyDeadlocks.OutsideTheHierarchyTasksDeadlock | pokerapp/lock_manager.py:4003-4015 | with any lock outside the hierarchy and any inside two tasks pass every check and deadlock, and the detector's graph has a cycle |
| ActionLock.Backend.Set | pokerapp/lock_manager.py:270-293 | a value is stored with its expiry unless a live one is there |
| ActionLock.Backend.Eval | pokerapp/lock_manager.py:295-330 | a value is deleted if and only if it is live and carries the caller's token |
| ActionLock.AcquireActionLock | pokerapp/lock_manager.py:5382-5489 | the caller gets the token exactly when the store took it and the call came back; a connection error before or after the effect gives none |
| ActionLock.ReleaseActionLock | pokerapp/lock_manager.py:5678-5766 | the answer is whether the store gave the token up and the call came back |
| ActionLock.LiveMeansStored | pokerapp/lock_manager.py:266-341 | at every moment of every run a grant is live exactly when the store shows its token |
| ActionLock.GrantLastsItsTime | pokerapp/lock_manager.py:5382-5489 | in every run a granted token is stored exactly until its time to live has passed, or one second when that is not positive, unless a release of it reaches the store |
| ActionLock.OneLiveTokenPerKey | pokerapp/lock_manager.py:281-290 | no key ever has two live tokens |
| ActionLock.AcquireIsExact | pokerapp/lock_manager.py:5441-5489 | a caller gets the lock if and only if its call does not fail and nobody holds a live token for it |
| ActionLock.ReleaseAnswersTheOwner | pokerapp/lock_manager.py:5723-5766 | a release answers yes if and only if its call does not fail and its caller holds a live token |
| ActionLock.ReleaseEndsOnlyItsOwn | pokerapp/lock_manager.py:5723-5766 | a release that reaches the store ends the caller's own grant and no other, also after an expiry |
| RetryBudget.SliceIsAShare | pokerapp/lock_manager.py:3854-3877 | a slice is positive and at most an equal share of what remains, and all of it on the last attempt |
| RetryBudget.SlicesGrow | pokerapp/lock_manager.py:3854-3877 | three tenths of an equal share for the first of several attempts, from a half of it up for those after it, the later the more, and all that is left for the last |
| RetryBudget.PausesDouble | pokerapp/lock_manager.py:3880-3902 | a tenth of a second before the first retry, twice as long before every further one, at most two seconds, and up to a tenth longer by chance |
| RetryBudget.AttemptsMeanWhatTheySay | pokerapp/lock_manager.py:2768-2805 | only the last attempt can succeed; one that finds the lock free within its slice takes it then and there, one that fails has used its slice up and pauses as long as the back-off says if another attempt is to come and the pause ends before the deadline |
| RetryBudget.AdaptiveSlicesAreFair | pokerapp/lock_manager.py:3832-3902 | the slices leave every later attempt as much, and no pause is negative |
| RetryBudget.AttemptLoop | pokerapp/lock_manager.py:2768-2805 | the history of attempts and pauses within one deadline |
| RetryBudget.Acquire | pokerapp/lock_manager.py:2757-3063 | the deadline is never overrun, a failure has used all attempts or all time, and every attempt keeps its share |
| RetryBudget.BudgetHolds | pokerapp/lock_manager.py:2768-3063 | attempts and pauses together stay within the budget |
| RetryBudget.EveryAttemptKeepsItsShare | pokerapp/lock_manager.py:3854-3877 | before attempt k of n at least n - k equal parts of the budget are left, less the pauses taken |
| RetryBudget.GivesUpOnlyWhenSpent | pokerapp/lock_manager.py:2773-2790 | giving up before the last attempt means that a pause used up the budget to the last moment |
| WalletService.Service.ReserveChips | pokerapp/wallet_service.py:154-304 | what each outcome of balance query, debit, creation and compensation leaves in wallet and reservations, with the balance read before the debit |
| WalletService.Service.CommitReservation | pokerapp/wallet_service.py:306-354 | a commit, its reply, and the watchdog it cancels |
| WalletService.Service.RollbackReservation | pokerapp/wallet_service.py:356-493 | a rollback from its script to the cancelling of the watchdog, with every failure of script, loading, credit and queue and whatever others do at its awaits |
| WalletService.Service.AutoRollback | pokerapp/wallet_service.py:572-585 | the watchdog's rollback in the same way; it starts at most once, not after it was cancelled, and stops where it is when it is cancelled |
| WalletService.Service.EvalRollback | pokerapp/wallet_service.py:102-128 | the script and whether its reply lets the rollback go on, which it does for a reservation already rolled back too |
| WalletService.Service.CreditWallet | pokerapp/wallet_service.py:448-460 | a credit that works ends the payment, one that raises before or after its effect leads to the queue |
| WalletService.Service.HandleRefundFailure | pokerapp/wallet_service.py:462-493 | the queue takes the chips or they are lost |
| WalletService.Service.CancelWatchdog | pokerapp/wallet_service.py:567-570 | the watchdog does not start any more, or goes no further |
| WalletService.RollbackIsExact | pokerapp/wallet_service.py:102-128 | a rollback keeps wallet, reservation and queue together exactly under the named states of the reservation and outcomes of script, loading, credit and queue; fault-free that means: unless it was rolled back before |
| WalletService.EventGains | pokerapp/wallet_service.py:154-585 | every step changes wallet, reservations, queue and chips on their way back of the account that it is about by its gain, and those of no other account: calls that take effect without a reply, failed payments and stopped watchdogs lose what is due, and paying what is not due makes chips |
| WalletService.RunGains | pokerapp/wallet_service.py:154-585 | over any interleaving of any number of reservations, rollbacks and watchdogs every account gains the sum of the gains of the steps that are about it |
| WalletService.OrderlyRunConserves | pokerapp/wallet_service.py:356-493 | without faults, and if no rollback starts on a reservation already rolled back, every single account holds what it held |
| WalletService.OrderlyRunKeepsTheTotal | pokerapp/wallet_service.py:356-493 | and so do all accounts together |
| WalletService.ReservedExactlyWhen | pokerapp/wallet_service.py:154-304 | a reservation is granted if and only if nothing is asked for, or the balance seen suffices and no call fails; it takes its chips from the account that asked, from no other, and is recorded for that account |
| WalletService.ReserveAndRollBack | pokerapp/wallet_service.py:154-493 | a granted reservation rolled back without a fault leaves every single wallet as it was |
| WalletService.CommittedExactlyWhen | pokerapp/wallet_service.py:306-354 | a commit succeeds if and only if its call comes back and the reservation is pending or committed already; a lost reply leaves it committed too; after a success it has no watchdog, and no rollback without permission takes its chips out again |
| WalletService.RollbackGoesOnExactlyWhen | pokerapp/wallet_service.py:102-128 | a rollback goes on to the credit if and only if its call comes back and the reservation exists and is pending, rolled back already, or committed and allowed to be undone |
| WalletService.RollbackRuns | pokerapp/wallet_service.py:356-493 | step by step, a rollback during which the watchdog goes off at whichever await does to reservation and wallets what the record function says that the betting handler is modelled with |
| WalletService.WatchdogAndRollbackRefundTwice | pokerapp/wallet_service.py:107-109 | a run without any fault that doubles a player's chips |
| WalletService.WatchdogInRollbackRefundsTwice | pokerapp/wallet_service.py:395-399 | so does the watchdog when it wakes at any await of a rollback |
| WalletService.StoppedWatchdogPaysNothing | pokerapp/wallet_service.py:567-570 | a watchdog that has woken but not paid when a rollback ends is stopped, and the chips are repaid once |
| WalletService.TwoReservationsOverdraw | pokerapp/wallet_service.py:178-218 | two reservations that both saw the whole balance take it twice |
| WalletService.NeverInDebtExactlyWhenCovered | pokerapp/wallet_service.py:178-304 | no account is in debt at any moment of a run if and only if every reservation that takes chips and keeps them is covered by the balance at its debit |
| BettingHandler.Handler.CommitAndSave | pokerapp/betting_handler.py:506-657 | load, turn check, commit, apply, save and rollback under the lock, for every outcome of each |
| BettingHandler.Handler.CommitWithRetry | pokerapp/betting_handler.py:243-358 | the attempt loop, its retry rule and its rollbacks |
| BettingHandler.Handler.HandleBettingAction | pokerapp/betting_handler.py:71-143 | the whole action, with the outer rollback |
| BettingHandler.ValidExactlyWhen | pokerapp/betting_handler.py:659-702 | a request is valid if and only if there is a game and its player sits at the table, has not folded, and folds, checks with nothing to call, calls, goes all in, or raises to an amount above the current bet |
| BettingHandler.SucceedsExactlyWhen | pokerapp/betting_handler.py:71-143 | an action succeeds if and only if it is valid, gets the lock in time, finds its game and its turn, is applied and saved, and, if it needs chips, these are reserved and their commit takes effect and says so before a watchdog takes them back |
| BettingHandler.SuccessIsOneCommitAndOneSave | pokerapp/betting_handler.py:537-630 | success means exactly one commit of exactly the required chips, one version-checked save, in this order, and no rollback |
| BettingHandler.CommittedActionCovers | pokerapp/betting_handler.py:506-702 | what a successful check, call or raise has paid covers the bet of the table loaded under the lock if and only if the player's distance to that bet is no longer than the one validated before the lock |
| BettingHandler.FailureLeavesNothingCommitted | pokerapp/betting_handler.py:86-139 | a failure leaves the table unsaved unless a save took effect and raised, and the reservation not committed unless the rollback call was lost |
| BettingHandler.PhaseIsWholeExactlyWhen | pokerapp/betting_handler.py:506-657 | under the lock a bet is whole (saved and paid for, or unsaved and repaid exactly once) exactly under the given outcomes of commit, apply, save, rollbacks and the watchdog's timing, before or during the rollback |
| BettingHandler.ActionIsWholeExactlyWhen | pokerapp/betting_handler.py:71-143 | the same for the whole action with its lock attempts and its outer rollback, whatever the environment does |
| BettingHandler.EntersOnceAndRollsBackOnce | pokerapp/betting_handler.py:281-353 | however many lock attempts time out, the commit phase is entered at most once and a rollback is the last step |
| BettingHandler.RollsBackExactlyWhen | pokerapp/betting_handler.py:71-143 | an action with a reservation ends with rolling it back if and only if it fails, except when the game cannot be loaded under the lock, and the rollback may undo a commit if and only if one was tried |
| BettingHandler.ValidatedActionCovers | pokerapp/betting_handler.py:659-702 | on the table it is validated against, a check, call or raise brings the player exactly to the current bet or to the amount asked for, and needs no more chips than that |
| BettingHandler.RetriesExactlyWhen | pokerapp/betting_handler.py:451-472 | a retry happens if and only if the queue is short, the wait tolerable, and a reservation, if there is one, outlives wait and grace, or both are nothing |
| BettingHandler.RefundsInFineWorld | pokerapp/betting_handler.py:86-139 | when no rollback fails or is stopped, the chips are repaid not at all after a success, twice exactly when the watchdog wakes before the end of a rollback of the handler and the chips are not committed then, and once otherwise |
| BettingHandler.ExpiredReservationIsRefundedTwice | pokerapp/betting_handler.py:313-348 | the handler itself gets there when a lock attempt outlives the reservation |
| Cache.MultiLayerCache.GetFromL1 | pokerapp/cache_manager.py:201-211 | a hit moves its key to the back, an expired entry is dropped |
| Cache.MultiLayerCache.SetToL1 | pokerapp/cache_manager.py:213-220 | eviction, entry and order of a set |
| Cache.MultiLayerCache.RemoveFromL1 | pokerapp/cache_manager.py:222-225 | the key is gone from entries and order |
| Cache.MultiLayerCache.Lookup | pokerapp/cache_manager.py:67-86 | first layer, then the shared one, which refills the first |
| Cache.MultiLayerCache.Store | pokerapp/cache_manager.py:88-104 | both layers of a set with the effective time to live |
| Cache.MultiLayerCache.InvalidatePattern | pokerapp/cache_manager.py:140-174 | exactly the matching keys leave both layers, and their number is returned |
| Cache.PrefixedMatch | pokerapp/cache_manager.py:149-255 | the prefixed pattern selects in the shared layer the keys that the plain one selects in the first |
| Cache.GlobMeans | pokerapp/cache_manager.py:249-255 | in a pattern nothing but the star is special, and a star stands for any part of the key |
| Cache.InvalidateIsExact | pokerapp/cache_manager.py:140-174 | an invalidation takes exactly the matching keys out of the enabled layers, leaves every other entry as it is, and returns how many it took |
| Cache.SetReachesTheFirstLayer | pokerapp/cache_manager.py:88-104 | a set leaves its value in the first layer, if that is enabled, for its time to live, or the default one when that is absent or nothing |
| Cache.SetReachesTheSharedLayer | pokerapp/cache_manager.py:88-104 | and in the shared layer, if that is enabled, unless the time to live is not positive |
| Cache.GetRefillsTheFirstLayer | pokerapp/cache_manager.py:67-86 | what a read finds in the shared layer it leaves in the first one for that layer's time to live; otherwise it writes nothing |
| Cache.OneStepMore | pokerapp/cache_manager.py:67-174 | a run with one operation more is one step more, of both layers and of what was written last |
| Cache.RunKeepsLru | pokerapp/cache_manager.py:201-225 | in every run the access list orders exactly the keys of the first layer by their last use, without duplicates, and the size stays within the limit (or one, for a smaller limit) |
| Cache.VictimIsLeastRecentlyUsed | pokerapp/cache_manager.py:213-216 | when room is made, only the key used least recently goes |
| Cache.ReadsAreCurrent | pokerapp/cache_manager.py:67-104 | after any run with accepted writes, a read that finds something finds the last value set since a matching invalidation, not later than its time to live plus that of the first layer |
| Cache.SetIsReadBack | pokerapp/cache_manager.py:67-104 | a set value is read back throughout its time to live |
| Cache.SetReplacesExactlyWhen | pokerapp/cache_manager.py:88-104 | no read at any later time finds another value if and only if no older value of the shared layer, which refuses the write, outlives the new entry of the first one |
| Cache.RefusedSetIsForgotten | pokerapp/cache_manager.py:238-247 | an input on which the old value comes back |
| RateLimiter.Limiter.CheckLimit | pokerapp/alert_bridge.py:339-350 | the pruned list and the answer |
| RateLimiter.YoungAreWithinTheWindow | pokerapp/alert_bridge.py:342-350 | the pruned list is exactly the times less than a window ago, each as often as it was noted |
| RateLimiter.AllowedExactlyWhen | pokerapp/alert_bridge.py:339-350 | with a clock that does not go back a call is allowed if and only if fewer than the maximum were allowed within the last window, though the history was pruned |
| RateLimiter.StoredAreTheLasting | pokerapp/alert_bridge.py:342-350 | whatever the clock does, the stored list is the allowed times that were young at every later call of the chat |
| RateLimiter.PruningIsExactExactlyWhen | pokerapp/alert_bridge.py:342-350 | whatever the clock does, the pruned list shows the young part of the whole history if and only if no young time was dropped, and the decision differs exactly when the dropped ones make the difference |
| RateLimiter.WindowBoundUnlessMisjudged | pokerapp/alert_bridge.py:339-350 | whatever the clock does, no half-open interval of the window's length contains more allowed calls for one chat than the maximum, unless a decision differed from that on the whole history |
| RateLimiter.WindowBound | pokerapp/alert_bridge.py:339-350 | with a clock that does not go back no such interval ever contains more |
| RateLimiter.ClockGoingBackBreaksTheBound | pokerapp/alert_bridge.py:342-350 | four readings of a clock that jumps ahead and back which break the bound |
| CallbackMemory.Callbacks.MarkCallbackProcessed | pokerapp/entities.py:358-374 | an id is accepted if and only if it is a string not in the set; the loop never pops an empty deque |
| CallbackMemory.MarkRemembers | pokerapp/entities.py:366-372 | one accepted id more: the memory holds the first id and the recent ones |
| CallbackMemory.OneCallMore | pokerapp/entities.py:358-374 | in every run one call more accepts its id if and only if that is a string not remembered |
| CallbackMemory.RunRemembers | pokerapp/entities.py:358-374 | in every run the set stays within its limit and the deque is free of duplicates and inside the set |
| CallbackMemory.RejectedExactly | pokerapp/entities.py:363-364 | exactly the recent ids and the first one are rejected |
| CallbackMemory.LastLimitRejectedExactlyWhen | pokerapp/entities.py:366-372 | all of the last accepted ids, as many as the limit, are rejected if and only if the memory never overflowed |
| DealerRotation.Game.NextOccupiedSeat | pokerapp/entities.py:282-298 | the search around the table |
| DealerRotation.Game.AdvanceDealer | pokerapp/entities.py:300-304 | the button moves to the seat found |
| DealerRotation.NextIsOccupied | pokerapp/entities.py:282-298 | an occupied seat if there is one, from any start, and -1 otherwise |
| DealerRotation.NextIsNearest | pokerapp/entities.py:282-298 | going up from the start and round the table no occupied seat comes before the one found |
| DealerRotation.ButtonGoesRound | pokerapp/entities.py:282-304 | from one of k occupied seats, k moves visit every occupied seat exactly once and return |
| DealerRotation.BlindsFallOnTwoPlayers | pokerapp/pokerbotmodel.py:2654-2683 | blinds are posted if and only if three players sit at the table, or two with the button on one of them, and then by two different players; from three players on the first to act and an occupied dealer's seat are different from both |

## Left out

- Messaging, views, keyboards, statistics, metrics, logging and call-site tracing.
- Ranking of hands: a score is an arbitrary integer per contender.
- Redis key expiry (`PEXPIRE`) of game documents and reservations, failed writes to the shared cache, and the
  non-atomic fallback of the release script (`pokerapp/lock_manager.py:5252-5259`).
- Names in a user document that are not integers, missing fields and their defaults; a document state `"fold"`, which
  only the first check of an action knows beside `"folded"`.
- Task cancellation, except for the reader and writer steps of the table lock. A reader's critical sections contain no
  suspension, so its acquisition is not cancelled in the middle of one.
- `LockManager.acquire` beyond the attempt loop: the fast path, the circuit breaker that returns without a lock,
  `_validate_lock_order`, pooling and exit stacks; and the case without a deadline, where nothing is sliced.
- `RetryBudget.Acquire`: a lock attempt is taken to end exactly at its slice or earlier; the scheduler's delays are not
  part of the model.
- The smart-retry key that some readers and writers take besides the table lock, and the dropping of idle lock states.
- `HierarchyDeadlocks.HierarchyIsDeadlockFreeExactlyWhen`: the hierarchy is enforced, the duplicate check is off as by
  default (`pokerapp/lock_manager.py:524`), and a deadlock is one also if its tasks give up in the end: timeouts and
  cancellations are events of the model, but their times are not.
- `HandAccounting.WholeHandConservesChips`: the blinds are of two different players (`DealerRotation`), every player has
  a wallet without debts, and the hand starts; `HandAccounting.StartHandAccounting` says what a hand that does not start
  has cost. The note of reserved money beside the wallet's balance is not modelled.
- `SidePots.PaysExactlyThePot`: user ids are distinct, as the seats keep them.
- `_process_fold_win`, which is reached without contenders and pays nobody.
- The lock around each bet of `process_bet`, and games that change between its attempts other than by being reloaded.
- `BettingHandler.ActionIsWholeExactlyWhen`: releasing the table lock does not raise. The engine has no
  `apply_betting_action` (`pokerapp/betting_handler.py:711-713`); applying an action succeeds or raises.
- `BettingHandler.RefundsInFineWorld`: the watchdog takes its steps at one moment, which by `WalletService.RollbackRuns`
  and the independence of credits stands for any; a watchdog stopped before it paid counts among the failing rollbacks.
- `WalletService.EventGains`: a reservation and a commit are single steps; between their awaits nobody else knows a new
  reservation, and a watchdog that wakes on a committed one does nothing.
- `ReadWriteLock.RunKeepsInv`: a reader asleep may wake at any moment; that adds runs to those of `asyncio`, where it
  wakes only if the event was set meanwhile.
- `WalletService.Service.ReserveChips`: a creation script that ran but whose reply was lost leaves a reservation whose
  id nobody knows and which expires unused; it counts as not created. Ids never collide.
- Where the deck is refilled in the middle of a deal it is an arbitrary other deck; the 52 cards themselves and their
  shuffling are not modelled.
- Players who sit down or leave during a hand.
- `Cache.ReadsAreCurrent`: operations do not interleave at their awaits; values that JSON changes and patterns with
  other special characters than the star, on which the two layers differ, are not covered.
- `Cache.MultiLayerCache.InvalidatePattern`: a scan of the shared layer is taken to list every matching key once.
- `get_or_compute` and the hit counters of the cache, which only combine the operations above.
- `CallbackMemory.RunRemembers`: the limit is any positive number; in the source it is 100.
