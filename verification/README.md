# Verified model of the game's economies

This project models the parts of the Crypto Monkey Empire backend that keep accounts: tokens, units, loot,
resources and map tiles. Each economy is written twice. A pure module gives the state and its step functions
and proves what every step and every run keeps; where the program changes tables, queues or fields in place,
a class in the program's own form is proved to take exactly those steps.

| module | what it covers |
|---|---|
| `MkcTransfers`, `MkcService` | withdrawals and deposits of the MKC token, wallet rows, retries, the batch job and its rollback |
| `MkcTermination`, `MkcProgress`, `MkcDeposits` | how many changes and answers a transfer needs and what they achieve; which token movements are recorded as deposits |
| `MkcNegatives`, `MkcRollbacks` | what one negative withdrawal does to solvency and books, and when it makes a batch roll back after tokens left |
| `DelayedQueue` | a Redis sorted set in front of a pending list, and the job that moves due entries |
| `UnitProduction`, `ProductionServices` | orders, barracks, production tickets, the units producer |
| `ProductionDeadlines` | when units have arrived at the latest, if the services keep up |
| `AttackReport` | who wins a battle and how many units die, in exact integer arithmetic |
| `Battles`, `BattleServices` | launching, fighting, looting, coming home; the invariants of every run and of honest runs |
| `BattleEffects`, `BattleAccounts` | what one launch and one battle do; conservation of units and resources |
| `BattleLifeCycle`, `BattleDeadlines`, `BattleLoot` | phases of an attack, its earliest and latest times, what is looted and lost |
| `ResourceQuery`, `ResourceDeadlines` | the set-based resource production statement; whom it serves and how often |
| `TileSearch` | the search for a free map tile |
| `VillageFunds`, `VillageTransfers` | paying for a new village, exchanges between villages, the storage vault |
| `WalletPath` | the derivation path of a user's wallet |
| `Stock` | the table of village counts and `UPDATE ... FROM (values ...)` |
| `Options`, `Sequences` | shared definitions |

## How to read it

States are datatypes, steps are functions, and a run is a list of events in which everything the program does
not decide (chain answers, which rows a query returns, lost Redis writes, elapsed time, ties in a sorted set,
which value or group an `UPDATE ... FROM` applies, what other services do to the stock) is part of the event.
Lemmas over runs of tokens, of production and of attacks therefore speak about every interleaving of the modelled
services at the grain of one transaction or one queue operation; runs of attacks and of production also let other
services change any stock count, and those of attacks let them add stock rows and villages, at any time. Class
methods state in `ensures` that the new state is the step function of the old one, so the lemmas apply to them.

Lower bounds on what has arrived by a time (`ProductionDeadlines`, `ResourceDeadlines`, `BattleDeadlines`) hold of runs
in which the services keep up within a lag, and of good answers of the chain (`MkcProgress`); all say so in hypotheses.

Assumptions: a database statement does not fail on its own; clocks of all services agree and never go back; a
chain call that throws sent nothing, and a call with a negative amount throws; a user has one row in
`user_mkc_wallets`; token amounts are whole numbers of wei; only one mover works on a queue pair at a time.

## What the code does not guarantee

Where an expected property turned out not to hold of the code, the model keeps the code; one lemma gives the
exact condition and another an input at which the property fails.

- Withdrawals may be negative. After a sound state accepted one, solvency and the books survive every further run
  if and only if the amount was not negative (`MkcNegatives.SolventExactly`, `MkcNegatives.BooksExactly`); a negative
  one always extends to a run that pays out too much (`MkcNegatives.NegativeBreaksSolvency`) and to one that reserves
  more than there is (`MkcNegatives.NegativeBreaksBooks`). Batches keep committing, and withdrawals are paid once, if
  and only if the amount was not negative or is backed by the user's withdrawals that failed after they were sent
  (`MkcRollbacks.CommitsExactly`, `MkcRollbacks.PaidOnceExactly`); otherwise the withdrawals of every other user can
  be paid again and again (`MkcRollbacks.OthersToo`, with wallets of 10 and 7 in `MkcRollbacks.RepeatedPayout`).
- Recorded deposits add up to the token movements seen if and only if no two of them share a transaction hash
  (`MkcDeposits.DepositsRecorded`, `MkcDeposits.SecondMovementOfOneTransactionIsDropped`).
- The units of an attack are checked by a stated id, deducted by their key, credited by the id, and their dead
  are looked up by a stated name; nothing compares the three. A launch conserves a type, and leaves no negative
  count, exactly under the conditions of `BattleAccounts.LaunchConserves` and `Battles.LaunchNonNegative`, and an
  army comes home exactly under that of `BattleLifeCycle.ComesHomeExactly`. `BattleLoot.ForgedRaid` and
  `BattleLoot.StrandedRaid` are runs that break them. Lemmas about honest runs ask that the names agree.
- A homecoming adds loot only to rows that exist, so loot of a type without a row in the attacker's village
  vanishes, and of several entries under one id only one is credited (`BattleAccounts.ReturnConserves`,
  `BattleAccounts.HonestReturnConserves`, `BattleAccounts.ConservedExactly`, `BattleLoot.LootCanVanish`).
- Counts of an honest run stay non-negative if and only if no other service drives one below zero
  (`Battles.NeverNegativeExactly`); a stock that is negative is looted as it is
  (`BattleLoot.NegativeStockIsLooted`), and a garrison is set to zero by a battle (`BattleEffects.OverdrawnGarrison`).
- Loot is bounded by what the units sent could carry, not by the survivors (`BattleLoot.LootFitsSurvivors`,
  `BattleLoot.TheDeadCarryLoot`); winners can die to the last unit (`AttackReport.WinnerIsWipedOut`,
  `AttackReport.WinnersMayAllDie`).
- A facility type with two outputs can be stamped without being credited on one of them
  (`ResourceQuery.ExactWithoutRivalry`, `ResourceQuery.RivalryIsInexact`).
- The backward tile scan compares `y` with `x1`, and leaves the block unless the block begins on the diagonal
  (or just below it in one column); both scans skip a corner (`TileSearch.InsideExactly`, `TileSearch.LeavesTheBlock`,
  `TileSearch.FailsExactly`, `TileSearch.CornersAreMissed`).
- An exchange loses what the receiver has no row for (`VillageTransfers.ExchangeConserves`,
  `VillageTransfers.ExchangeCanLose`), and a negative count passes its checks (`VillageTransfers.ExchangeNonNegative`,
  `VillageTransfers.NegativeExchange`).
- A transfer type other than WITHDRAW and DEPOSIT adds the amount to village and vault
  (`VillageTransfers.TransferConserves`, `VillageTransfers.OtherTypeCreates`); a vault keeps the type of its first
  deposit and never compares it again (`VillageTransfers.TransferConservesTypes`, `VillageTransfers.MixedVault`);
  the first deposit is not cut to the capacity (`VillageTransfers.DepositWithinCapacity`,
  `VillageTransfers.FirstDepositOverfills`); a negative count passes (`VillageTransfers.TransferNonNegative`,
  `VillageTransfers.NegativeDeposit`); a withdrawal needs the amount in the village as well
  (`VillageTransfers.WithdrawalGranted`, `VillageTransfers.EmptyVillageCannotWithdraw`).
- A second village must be affordable but is not paid for (`VillageFunds.PaidFromTheThird`,
  `VillageFunds.SecondVillageIsFree`).

## Model

| member | source | states |
|---|---|---|
| MkcTransfers.Solvent | apps/blockchain-ms/src/services/blockchain-ms-mkc-relay.service.ts:114-473 | In every run that registered no negative withdrawal, a user is paid on chain at most the opening balance plus credited deposits, and credited deposits are covered by tokens the chain moved into the game account. |
| MkcTransfers.BooksAgree | apps/blockchain-ms/src/services/blockchain-ms-ingame-mkc.service.ts:32-138 | In every run that registered no negative withdrawal the reservation is the sum of the user's live or sent-then-failed withdrawals, lies between 0 and the balance, and the balance is opening + done deposits - done withdrawals. |
| MkcTransfers.NoRollback | apps/blockchain-ms/src/services/blockchain-ms-mkc-relay.service.ts:214-265 | In every run whose negative withdrawals, if any, were backed when accepted, a batch commits: no exception leaves the error handler, and every live withdrawal can be taken off both wallet columns. |
| MkcTransfers.PaidOnce | apps/blockchain-ms/src/services/blockchain-ms-mkc-relay.service.ts:336-363 | In every such run each payout belongs to its own withdrawal row, which records it, with the row's user and amount; no row is paid twice. |
| MkcTransfers.UnsignedRun | apps/blockchain-ms/src/services/blockchain-ms-mkc-relay.service.ts:114-473 | A run without negative withdrawals reaches a sound state: the reservation invariant holds and no user owes anything. |
| MkcRollbacks.CommitsExactly | apps/blockchain-ms/src/services/blockchain-ms-mkc-relay.service.ts:214-265 | After a sound state accepts a withdrawal of z, every batch of every further run without negative ones commits if and only if z >= 0 or -z is at most the user's withdrawals that failed with a hash. |
| MkcRollbacks.PaidOnceExactly | apps/blockchain-ms/src/services/blockchain-ms-mkc-relay.service.ts:336-422 | Every payout of every such run is recorded on its own row under that condition and no other. |
| MkcRollbacks.OthersToo | apps/blockchain-ms/src/services/blockchain-ms-mkc-relay.service.ts:214-265 | Without it, any other user with a positive withdrawal waiting can be paid more than that user ever had. |
| MkcRollbacks.PaidAgain | apps/blockchain-ms/src/services/blockchain-ms-mkc-relay.service.ts:214-265 | A batch with a row whose release throws can pay a waiting withdrawal any number of times; the tables stay as they were. |
| MkcRollbacks.RepeatedPayout | apps/blockchain-ms/src/services/blockchain-ms-mkc-relay.service.ts:397-411 | A run for it: wallets of 10 and 7, one user withdraws -5, and the 7 of the other are paid until they exceed all that user ever had. |
| MkcNegatives.SolventExactly | apps/blockchain-ms/src/services/blockchain-ms-mkc-relay.service.ts:138-152 | After a sound state accepts a withdrawal, every further run without negative ones is solvent for all users if and only if the amount was not negative. |
| MkcNegatives.NegativeBreaksSolvency | apps/blockchain-ms/src/services/blockchain-ms-mkc-relay.service.ts:138-152 | One accepted negative withdrawal extends to a run that pays the user more than was ever there. |
| MkcNegatives.BooksExactly | apps/blockchain-ms/src/services/blockchain-ms-ingame-mkc.service.ts:63-138 | After a sound state accepts a withdrawal, the books of all users agree in every further run without negative ones if and only if the amount was not negative. |
| MkcNegatives.NegativeBreaksBooks | apps/blockchain-ms/src/services/blockchain-ms-ingame-mkc.service.ts:63-79 | One accepted negative withdrawal extends to a run in which the user's pending column exceeds the balance. |
| MkcDeposits.DepositsRecorded | apps/blockchain-ms/src/services/blockchain-ms-mkc-relay.service.ts:447-464 | Of distinct token movements, each seen at least once, in any order and in any run, the deposit rows add up to all if and only if no two share a transaction hash. |
| MkcDeposits.RecordedDeposits | apps/blockchain-ms/src/services/blockchain-ms-mkc-relay.service.ts:424-473 | The deposit rows of one user, or of all, add up to the seen movements whose hash arrived first; with distinct hashes these are all movements to that user. |
| MkcDeposits.SecondMovementOfOneTransactionIsDropped | apps/blockchain-ms/src/services/blockchain-ms-mkc-relay.service.ts:447-464 | An input for it: of two movements sharing a hash only the first is recorded. |
| MkcTransfers.CreditedOnce | apps/blockchain-ms/src/services/blockchain-ms-mkc-relay.service.ts:424-473 | In every run, whatever the amounts, a source transaction hash belongs to one deposit row at most, and seeing the hash again, with any receiver or amount, changes nothing. |
| MkcTermination.TransferTerminates | apps/blockchain-ms/src/services/blockchain-ms-mkc-relay.service.ts:267-422 | No transfer row changes more than 12 times in any run, and retries stay within 5, whatever the amounts. |
| MkcTermination.StepsDown | apps/blockchain-ms/src/services/blockchain-ms-mkc-relay.service.ts:267-422 | Every step of a live transfer that the chain answers, well or badly, brings it closer to its end. |
| MkcTermination.TwelveAnswersFinish | apps/blockchain-ms/src/services/blockchain-ms-mkc-relay.service.ts:267-422 | In runs whose negative withdrawals are backed, a transfer that was answered twelve times is DONE or FAILED. |
| MkcProgress.SixFailures | apps/blockchain-ms/src/services/blockchain-ms-mkc-relay.service.ts:397-422 | In runs whose negative withdrawals are backed, a transfer has failed if and only if its last six answers were failures with no step forward between them; while it is live, its retries are the failures since its last step. |
| MkcProgress.TwoGoodAnswers | apps/blockchain-ms/src/services/blockchain-ms-mkc-relay.service.ts:267-395 | In such a run a transfer that is never answered badly is DONE if and only if it was answered well twice, and it is never answered well more often. |
| MkcProgress.DepositIsCredited | apps/blockchain-ms/src/services/blockchain-ms-mkc-relay.service.ts:304-334 | A confirmed deposit raises its user's balance by its amount and is closed; no other row, balance or reservation changes. |
| MkcProgress.DepositsArrive | apps/blockchain-ms/src/services/blockchain-ms-mkc-relay.service.ts:267-334 | If every deposit of a user was answered well twice and never badly, the balance is the opening balance plus all token movements to the user seen on chain (of distinct hashes) less the withdrawals done. |
| MkcProgress.WithdrawalsArrive | apps/blockchain-ms/src/services/blockchain-ms-mkc-relay.service.ts:336-395 | If every withdrawal of a user was answered so, the user was sent exactly what was asked for and accepted, the balance is lower by as much, and nothing is reserved any more. |
| MkcProgress.RequestExactly | apps/blockchain-ms/src/services/blockchain-ms-mkc-relay.service.ts:114-194 | A withdrawal is registered if and only if the wallet exists, the address and the amount are valid and the amount is at most balance less reservation; it adds one pending row and reserves its amount, and otherwise nothing changes. |
| MkcProgress.OpeningExactly | apps/blockchain-ms/src/services/blockchain-ms-ingame-mkc.service.ts:17-30 | Asking for a balance opens an empty wallet with a NULL pending column if there is none, and changes nothing else. |
| MkcProgress.AbortKeepsTheChain | apps/blockchain-ms/src/services/blockchain-ms-mkc-relay.service.ts:214-265 | A batch that does not finish restores both tables and keeps exactly the token movements made before the pick whose exception escaped. |
| MkcTermination.FinalStates | apps/blockchain-ms/src/services/blockchain-ms-mkc-relay.service.ts:397-422 | A transfer that is DONE or FAILED never changes again. |
| MkcTransfers.NextKeeps | apps/blockchain-ms/src/services/blockchain-ms-mkc-relay.service.ts:114-473 | The reservation invariant is inductive: wallet creation, requests, chain events and batches keep it, unless they register a negative amount beyond what failed withdrawals back. |
| MkcTransfers.NextTable | apps/blockchain-ms/src/services/blockchain-ms-mkc-relay.service.ts:114-473 | Whatever the amounts, every event keeps retries, statuses, hashes and the uniqueness of source hashes consistent. |
| MkcTransfers.ProcessKeeps | apps/blockchain-ms/src/services/blockchain-ms-mkc-relay.service.ts:267-395 | One processing step of a live transfer keeps the invariant and lets no exception out. |
| MkcTransfers.ProcessFrame | apps/blockchain-ms/src/services/blockchain-ms-mkc-relay.service.ts:267-422 | A processing step writes no transfer row but its own. |
| MkcTransfers.BatchKeeps | apps/blockchain-ms/src/services/blockchain-ms-mkc-relay.service.ts:214-265 | A batch over any selection of live rows, each picked once, finishes and keeps the invariant. |
| MkcTransfers.HeldIsCovered | apps/blockchain-ms/src/services/blockchain-ms-ingame-mkc.service.ts:99-138 | In a sound state, for every reserved transfer, sent or failed after it was sent, the wallet row exists, its pending column is set, and both columns cover the amount. |
| MkcTransfers.LiveIsCovered | apps/blockchain-ms/src/services/blockchain-ms-ingame-mkc.service.ts:99-138 | Under the invariant alone, whatever backed negative amounts there are, the decrease for a live withdrawal never throws. |
| MkcTransfers.RequestKeeps | apps/blockchain-ms/src/services/blockchain-ms-mkc-relay.service.ts:114-194 | A withdrawal request, accepted or refused, keeps the invariant if the debts of its user stay backed. |
| MkcService.MkcBackend.GetBalance | apps/blockchain-ms/src/services/blockchain-ms-ingame-mkc.service.ts:17-30 | Opens an empty wallet when there is none and returns the row. |
| MkcService.MkcBackend.IncrementBalance | apps/blockchain-ms/src/services/blockchain-ms-ingame-mkc.service.ts:32-61 | Raises one user's balance by the amount, creating the row if needed, and leaves the pending column alone. |
| MkcService.MkcBackend.LockBalanceForDecrease | apps/blockchain-ms/src/services/blockchain-ms-ingame-mkc.service.ts:99-138 | Succeeds exactly when the row exists, its pending column is set and both columns hold the amount; then yields both columns less the amount. |
| MkcService.MkcBackend.DecreasePendingBalance | apps/blockchain-ms/src/services/blockchain-ms-ingame-mkc.service.ts:63-79 | Lowers only the pending column, or changes nothing when the decrease is refused. |
| MkcService.MkcBackend.DecreaseBalance | apps/blockchain-ms/src/services/blockchain-ms-ingame-mkc.service.ts:81-97 | Lowers both columns, or changes nothing when the decrease is refused. |
| MkcService.MkcBackend.TransferToExternalWallet | apps/blockchain-ms/src/services/blockchain-ms-mkc-relay.service.ts:114-194 | Takes exactly the modelled request step; it succeeds exactly when a row is added. |
| MkcService.MkcBackend.TransferListener | apps/blockchain-ms/src/services/blockchain-ms-mkc-relay.service.ts:424-473 | Takes exactly the modelled step for a chain event. |
| MkcService.MkcBackend.IncrementTransferRetriesOrRevert | apps/blockchain-ms/src/services/blockchain-ms-mkc-relay.service.ts:397-422 | Takes exactly the modelled error step, and fails only where the release of the reservation throws. |
| MkcService.MkcBackend.ProcessGamePendingTransfer | apps/blockchain-ms/src/services/blockchain-ms-mkc-relay.service.ts:267-302 | Takes exactly the modelled step for a pending deposit. |
| MkcService.MkcBackend.ProcessGameInProgressTransfer | apps/blockchain-ms/src/services/blockchain-ms-mkc-relay.service.ts:304-334 | Takes exactly the modelled step for a swept deposit. |
| MkcService.MkcBackend.ProcessExternalPendingTransfer | apps/blockchain-ms/src/services/blockchain-ms-mkc-relay.service.ts:336-363 | Takes exactly the modelled step for a pending withdrawal. |
| MkcService.MkcBackend.ProcessExternalInProgressTransfer | apps/blockchain-ms/src/services/blockchain-ms-mkc-relay.service.ts:365-395 | Takes exactly the modelled step for a sent withdrawal. |
| MkcService.MkcBackend.ProcessTransfers | apps/blockchain-ms/src/services/blockchain-ms-mkc-relay.service.ts:214-265 | Working from row copies taken at the start reaches the state of processing the current rows one by one; on an escaping exception the tables are restored and the chain movements stay. |
| DelayedQueue.MoveConserves | libs/scheduler/src/scheduler.service.ts:23-49 | A move neither loses nor duplicates an entry: delayed plus pending is the same multiset. |
| DelayedQueue.MoveIsDue | libs/scheduler/src/scheduler.service.ts:31-49 | Only due entries arrive in the pending list, behind what was there; the others keep their scores. |
| DelayedQueue.MoveTakesAllDue | libs/scheduler/src/scheduler.service.ts:17-50 | As many entries move as are due, up to the limit; nothing due is left when at most the limit was due. |
| DelayedQueue.MoveInOrder | libs/scheduler/src/scheduler.service.ts:31-49 | Entries that arrive in one move stand in the order of their scores. |
| DelayedQueue.MoveKeepsSingle | libs/scheduler/src/scheduler.service.ts:42-46 | A move keeps every entry in one place and the set of entries the same. |
| DelayedQueue.DuePrefix | libs/scheduler/src/scheduler.service.ts:31-39 | The longest leading part of the reply that is due: all in it is due and the next entry is not. |
| DelayedQueue.Scheduler.MoveFromZsetToList | libs/scheduler/src/scheduler.service.ts:17-50 | The loop over the flattened member/score reply moves exactly the due prefix, in reply order. |
| UnitProduction.Paced | apps/units-producer/src/units-producer.service.ts:108-186 | At any time of any run, faults included, an order has received delivered units with delivered * production time <= time since it was placed, and at most the ordered quantity. |
| UnitProduction.OneLiveTicket | apps/resources-ms/src/services/resources-ms-orders.service.ts:136-204 | In every run an order and a barrack have at most one live ticket, in one place, and a live ticket means a busy barrack and an unfinished order. |
| UnitProduction.BusyExactly | apps/resources-ms/src/services/resources-ms-orders.service.ts:136-204 | Without faults a barrack is busy exactly while it has an unfinished order; that order is the only one and its ticket is live. |
| UnitProduction.QuietMeansFilled | apps/units-producer/src/units-producer.service.ts:143-186 | Without faults, when no ticket is left every order is filled and no barrack is busy. |
| ProductionDeadlines.Arrived | apps/units-producer/src/units-producer.service.ts:108-186 | If due tickets are moved and delivered within a lag and nothing fails, then once more than n * (production time + lag) has passed since an order was placed, n of its units have arrived, or all. |
| UnitProduction.ReadBackSound | apps/units-producer/src/units-producer.service.ts:81-106 | The joined query returns at most one row, and when it returns none the order has received nothing, so assuming zero is right. |
| UnitProduction.DeliversExactlyOne | apps/units-producer/src/units-producer.service.ts:108-141 | A ticket delivers exactly one unit to its own order, never beyond the order; a rolled-back delivery delivers none. |
| UnitProduction.TwentyOneMove | apps/units-production-scheduler/src/app.service.ts:43-56 | One move takes all due tickets of a unit type up to 21, and with no more than that leaves none due. |
| UnitProduction.ProducedForm | apps/units-producer/src/units-producer.service.ts:99-187 | In a reachable state neither guard of the producer drops a ticket: a delivery commits, then requeues or releases the barrack. |
| UnitProduction.StockGain | apps/units-producer/src/units-producer.service.ts:108-141 | Over any run a village's count of a unit type grows by exactly what its orders received plus what other services changed. |
| UnitProduction.NextKeeps | apps/units-producer/src/units-producer.service.ts:37-195 | Orders, moves, deliveries with any fault, foreign stock changes and time all keep the ticket invariant; fault-free steps lose no ticket. |
| UnitProduction.OrderPayment | apps/resources-ms/src/services/resources-ms-orders.service.ts:85-176 | An order is granted if and only if it is for one unit at least, the barrack is known, offers the unit and is idle, and the village has rows holding food, iron and wood cost times quantity; it then takes exactly those three products, enters the order as asked for and occupies the barrack, and nothing else changes; a refused order changes nothing. |
| UnitProduction.RefusedBecause | apps/resources-ms/src/services/resources-ms-orders.service.ts:35-142 | A refusal names the first of five demands that is not met: a positive quantity, a known facility, an available unit, enough of the three resources, an idle barrack. |
| UnitProduction.AffordableMeans | apps/resources-ms/src/services/resources-ms-orders.service.ts:91-134 | The price check passes exactly when rows for food, iron and wood exist and hold the food, iron and wood cost of one unit times the quantity. |
| ProductionServices.ProductionBackend.HasEnoughResources | apps/resources-ms/src/services/resources-ms-orders.service.ts:85-127 | The flag cleared in the loop over the rows is the price check: food, iron and wood rows exist and hold their cost times the quantity. |
| ProductionServices.ProductionBackend.Create | apps/resources-ms/src/services/resources-ms-orders.service.ts:35-218 | Takes exactly the modelled order step and gives its verdict, checks in the same order. |
| ProductionServices.ProductionBackend.Produce | apps/units-producer/src/units-producer.service.ts:62-192 | Takes exactly the modelled delivery step, for every fault. |
| AttackReport.BattleOutcome | apps/battles-manager/src/utils/attackReport.ts:38-114 | The attacker wins exactly when the damage of all units sent exceeds the defense plus pierce defense of all defending units; losers and ties lose everything; a winner loses k of n units of each type with (2k-1)^2 W^3 <= 4 n^2 L^3 < (2k+1)^2 W^3. |
| AttackReport.PointsAreStrength | apps/battles-manager/src/utils/attackReport.ts:19-38 | The points summed over the unit descriptions are the sum over the units of the army, whatever the descriptions, if each type is described once. |
| AttackReport.TenAgainstTen | apps/battles-manager/src/utils/attackReport.ts:40-89 | An input: ten units of damage 10 attack ten of defense 8 and pierce defense 8, all attackers die and five defenders. |
| AttackReport.HalvesRoundUp | apps/battles-manager/src/utils/attackReport.ts:5-17 | An input: of a hundred units winning with 1000 points against 250, 13 die. |
| AttackReport.WinnerLosses | apps/battles-manager/src/utils/attackReport.ts:62-91 | For winner points above loser points the divisor is positive and the losses k of n satisfy (2k-1)^2 W^3 <= 4 n^2 L^3 < (2k+1)^2 W^3. |
| AttackReport.RoundedUnique | apps/battles-manager/src/utils/attackReport.ts:10-14 | Those inequalities have one solution. |
| AttackReport.LossesOrdered | apps/battles-manager/src/utils/attackReport.ts:5-17 | Losses grow with the army and the loser's points and shrink with the winner's points. |
| AttackReport.LossesScaleFree | apps/battles-manager/src/utils/attackReport.ts:62-73 | Scaling both sides' points changes no loss. |
| AttackReport.WinnerIsWipedOut | apps/battles-manager/src/utils/attackReport.ts:62-91 | A winning army dies to the last unit if and only if (2n-1)^2 W^3 <= 4 n^2 L^3 holds of the n units of each type it brought, W and L being the two strengths. |
| AttackReport.WinnersMayAllDie | apps/battles-manager/src/utils/attackReport.ts:9-16 | An input for it: one unit winning with 10 points against 9 dies. |
| Battles.FightFacts | apps/battles-manager/src/battles-manager.service.ts:214-290 | In a non-negative table, dead and loot are parts of what the queries selected, and taking them leaves unique keys and no negative count. |
| Battles.Survivors | apps/battles-manager/src/battles-manager.service.ts:372-378 | With agreeing names, the survivors of each type are those sent less those dead, never fewer than none. |
| Battles.NextKeeps | apps/battles-manager/src/battles-manager.service.ts:294-401 | Launches with agreeing names, moves, battles, homecomings and changes by other services that end at zero or more keep counts non-negative and attacks sound. |
| Battles.NeverNegativeExactly | apps/battles-manager/src/battles-manager.service.ts:71-290 | Over a run of honest launches the counts are never negative if and only if no change by another service leaves its count negative. |
| Battles.NextRuns | apps/battles-manager/src/battles-manager.service.ts:214-401 | Whatever the units are called and whatever other services do to the stock, every event keeps keys unique, attack flags, reports and loot consistent, and tickets matched to attacks. |
| Battles.LaunchNonNegative | apps/cme-backend/src/attacks/attacks.service.ts:102-183 | An accepted launch leaves no negative count if and only if the rows of the keys, where they exist, hold what is sent. |
| BattleEffects.LaunchExactly | apps/cme-backend/src/attacks/attacks.service.ts:57-211 | A launch is accepted exactly between villages of two users, without truce, for a positive entry at least, each under a unit key with enough of its id in stock; it enters the positive entries, announces now plus travel time, enqueues one ticket due at that very time and takes the units off the rows of their keys; otherwise nothing changes. |
| BattleEffects.BattleDecided | apps/battles-manager/src/battles-manager.service.ts:298-351 | In a non-negative table the attackers win exactly when the damage of what they sent exceeds the defense of the units lying in the village when the ticket is taken up; they then lose the rounded three-halves power of each type, otherwise all. |
| BattleEffects.GarrisonLosses | apps/battles-manager/src/battles-manager.service.ts:222-246 | The defending village loses all units, or the rounded three-halves power of each type if its defense is strictly greater. |
| BattleEffects.OverdrawnGarrison | apps/battles-manager/src/utils/attackReport.ts:5-17 | A unit count that was driven below zero in the defending village is zero after the battle, whoever wins. |
| BattleEffects.Plundered | apps/battles-manager/src/battles-manager.service.ts:93-153 | A won battle takes from each resource row of the defender, and records, a quarter of 60 for each unit sent (for mkc a hundredth of that), or all there is; a battle not won takes nothing, and no other village changes. |
| BattleAccounts.LaunchConserves | apps/cme-backend/src/attacks/attacks.service.ts:166-183 | An accepted launch conserves a type, whichever entry of an id the database will credit, if and only if every entry claiming the type claims what was deducted from its row, or none claims it and nothing was deducted. |
| BattleAccounts.Conservation | apps/battles-manager/src/battles-manager.service.ts:214-401 | Over every run of honest launches, with any changes by other services, villages + marching + coming home + dead + vanished loot is for each type what it was plus what the others changed. |
| BattleAccounts.ConservedExactly | apps/battles-manager/src/battles-manager.service.ts:155-171 | Over such a run from peace in which no other service drives a count below zero, nothing is lost of a type if and only if every army that came home with loot of it found a row there at that time; units never are. |
| BattleAccounts.ReturnConserves | apps/battles-manager/src/battles-manager.service.ts:155-171 | In any run, a homecoming conserves a type if and only if its handler throws, or what the applied entries and the loot credit to the village's row is what was on the way. |
| BattleAccounts.HonestReturnConserves | apps/battles-manager/src/battles-manager.service.ts:155-212 | With agreeing names a homecoming loses exactly the loot whose type has no row in the attacker's village. |
| BattleAccounts.HomecomingGives | apps/battles-manager/src/battles-manager.service.ts:155-212 | In any run, a homecoming adds loot and, of each id, the survivors of the entry the database applies to the rows the attacker's village has, and nothing to any other village. |
| BattleLifeCycle.Phases | apps/battles-manager/src/battles-manager.service.ts:247-290 | In every run, each attack is in one phase, told alike by its flags and its tickets; only the return ticket of an attack that states a name which is no key can be missing. |
| BattleLifeCycle.ComesHomeExactly | apps/battles-manager/src/battles-manager.service.ts:356-401 | An army whose ticket is taken up comes home if and only if each name it states is one of its keys; otherwise the ticket is gone and nothing is added. |
| BattleLifeCycle.ResolvedOnce | apps/battles-manager/src/battles-manager.service.ts:294-401 | In every run, once fought, an attack's report and loot never change; once home, nothing does. |
| BattleLifeCycle.NeverEarly | apps/battles-manager/src/battles-manager.service.ts:272-401 | In no run is a battle fought before its attack time, or an army home before it also travelled back. |
| BattleDeadlines.FoughtAndHomeInTime | apps/battles-manager/src/battles-manager.service.ts:272-401 | If due tickets are moved and handled within a lag, a battle is fought within one lag of the announced time, and an army whose stated names are keys is home within two lags of that time and the way back. |
| BattleLifeCycle.TwentyOneMove | apps/units-production-scheduler/src/app.service.ts:43-56 | One move takes all due marches, or homecomings, up to 21. |
| BattleLoot.LootWithinCapacity | apps/battles-manager/src/battles-manager.service.ts:71-153 | In every run, the loot an attack records is at most the capacity of the units sent; if launches are honest and no other service drives a count below zero, none of it is negative. |
| BattleLoot.NegativeStockIsLooted | apps/battles-manager/src/battles-manager.service.ts:100-153 | A run from peace for the other case: another service leaves the defender at -2 food after the launch, and the attack records loot of -2 food. |
| BattleLoot.LootFitsSurvivors | apps/battles-manager/src/battles-manager.service.ts:93-125 | The survivors can carry the loot of every stock if and only if 3*(C/4) + C/4/100 is at most their capacity, C being that of the units sent. |
| BattleLoot.TheDeadCarryLoot | apps/battles-manager/src/battles-manager.service.ts:264-271 | An input for it: an attacker that dies winning still loots 15 food. |
| BattleLoot.LootCanVanish | apps/battles-manager/src/battles-manager.service.ts:155-171 | A run from peace in which 34 units bring home 5 mkc that no row receives. |
| BattleLoot.ForgedRaid | apps/cme-backend/src/attacks/attacks.service.ts:102-183 | A run from peace in which a key and an id disagree: a unit count ends at -1000 and food doubles. |
| BattleLoot.StrandedRaid | apps/battles-manager/src/battles-manager.service.ts:372-378 | A run from peace in which a stated name is no key: the winning army is never seen again. |
| BattleServices.BattleBackend.FilterUnits | apps/cme-backend/src/attacks/attacks.service.ts:87-92 | The loop drops exactly the units requested at zero or less. |
| BattleServices.BattleBackend.HasUnits | apps/cme-backend/src/attacks/attacks.service.ts:102-125 | The check passes exactly when every entry stands under the key of a unit and the village's row of the stated id holds enough. |
| BattleServices.BattleBackend.Create | apps/cme-backend/src/attacks/attacks.service.ts:57-211 | Takes exactly the modelled launch step; it succeeds exactly when an attack is added. |
| BattleServices.BattleBackend.LoadCapacity | apps/battles-manager/src/battles-manager.service.ts:93-98 | Adds up what the units sent can carry. |
| BattleServices.BattleBackend.CollectLoot | apps/battles-manager/src/battles-manager.service.ts:100-125 | Visits the defender's resource rows in table order and takes of each the minimum of limit and count. |
| BattleServices.BattleBackend.UpdateDefenderStolenResources | apps/battles-manager/src/battles-manager.service.ts:71-153 | Loots the minimum of limit and count from each resource row, takes it out of those rows and records it. |
| BattleServices.BattleBackend.UpdateDb | apps/battles-manager/src/battles-manager.service.ts:214-291 | Takes off the dead, records the report, and on a win loots and enqueues the homecoming. |
| BattleServices.BattleBackend.Fight | apps/battles-manager/src/battles-manager.service.ts:298-351 | Takes exactly the modelled battle step for the next pending ticket. |
| BattleServices.BattleBackend.RemoveCasualties | apps/battles-manager/src/battles-manager.service.ts:372-378 | The loop over the casualties takes each off the entry whose key it names and yields the survivors; it fails exactly when a casualty names no key. |
| BattleServices.BattleBackend.Handle | apps/battles-manager/src/battles-manager.service.ts:293-401 | One round is one modelled battle step followed by one modelled homecoming step. |
| ResourceQuery.CreditsWhatItStamps | apps/resources-ms/src/services/resourcesCronQuery.ts:9-54 | A stock row gains the yield of exactly the facilities stamped for its applied group; those are no longer due, all others are untouched and as due as before. |
| ResourceQuery.ExactWithoutRivalry | apps/resources-ms/src/services/resourcesCronQuery.ts:38-54 | Whatever groups are applied, every stamped facility is credited on all its rows if and only if no due facility with two rows has a rival group on one of them. |
| ResourceQuery.RivalryIsInexact | apps/resources-ms/src/services/resourcesCronQuery.ts:38-54 | With a rival group there is a choice of applied groups under which a stamped facility misses a credit. |
| ResourceQuery.SingleOutputsHaveNoRivalry | migrations/1605441756285-Populate.ts:38-42 | With one output for each producing facility type and unique stock rows, as shipped, that condition holds. |
| ResourceQuery.QueryShrinks | apps/resources-ms/src/services/resourcesCronQuery.ts:27-53 | At a fixed time a run removes the applied group of each row from the waiting groups and adds none. |
| ResourceQuery.Drains | apps/resources-ms/src/services/resourcesCronQuery.ts:9-54 | Repeated at a fixed time, the query serves all facilities waiting on a row after at most as many runs as the row has waiting groups. |
| ResourceQuery.RateBound | apps/resources-ms/src/services/resourcesCronQuery.ts:27-53 | For any schedule of runs, a facility credited n times has existed for at least n periods. |
| ResourceDeadlines.StampedExactly | apps/resources-ms/src/services/resourcesCronQuery.ts:27-53 | A facility without rivals is stamped if and only if its village is owned, a stock row counts one of its outputs and more than its period has passed since it last produced or was built; otherwise it stays as it was. |
| ResourceDeadlines.CreditExactly | apps/resources-ms/src/services/resourcesCronQuery.ts:9-45 | A stock row gains the yield of all overdue facilities of one type and level aimed at it, for one such type and level, and stays as it was if there are none. |
| ResourceDeadlines.ProducedByAge | apps/resources-ms/src/services/resourcesCronQuery.ts:27-53 | If the query runs at least once in every lag, a facility without rivals has produced n times once its age exceeds n periods and lags. |
| ResourceQuery.ProductionCron.Produce | apps/resources-ms/src/services/resourcesCronQuery.ts:8-59 | The three stages together reach, row by row, the state of the modelled query. |
| TileSearch.FindUnusedTile | apps/cme-backend/src/villages/villages.service.ts:522-570 | For every block, tile list and start cell both scans terminate and return the first free cell forward, else the first free cell backward before the stop cell, else nothing. |
| TileSearch.FindsOne | apps/cme-backend/src/villages/villages.service.ts:522-570 | The specification of the search admits one result. |
| TileSearch.InsideExactly | apps/cme-backend/src/villages/villages.service.ts:550-567 | Results always lie in the block if and only if x1 = y1, or the block is one column with y1 = x1 + 1. |
| TileSearch.LeavesTheBlock | apps/cme-backend/src/villages/villages.service.ts:550-567 | An input at which the search returns a cell outside the block. |
| TileSearch.FailsExactly | apps/cme-backend/src/villages/villages.service.ts:533-569 | With x1 = y1 the search fails exactly when every cell it looks at is used; then all cells but possibly the two corners are used. |
| TileSearch.ResultIsFree | apps/cme-backend/src/villages/villages.service.ts:538-559 | With x1 = y1 a result is a free cell of the block. |
| TileSearch.CornersAreMissed | apps/cme-backend/src/villages/villages.service.ts:533-552 | On the shipped block, started at its first cell with only the last cell free, the search finds nothing. |
| VillageFunds.CheckedMeansPaid | apps/cme-backend/src/villages/villages.service.ts:163-239 | If all villages together hold 35000 of each base resource, exactly 35000 of each is removed over all villages, and no row is pushed below zero. |
| VillageFunds.RemovesPriceExactly | apps/cme-backend/src/villages/villages.service.ts:199-239 | The full price of a resource is removed if and only if the rows that are not overdrawn hold it. |
| VillageFunds.PaidFromTheThird | apps/cme-backend/src/villages/villages.service.ts:314-376 | A new village costs 35000 of each base resource if and only if the user has two villages or more that together hold as much of each; otherwise nothing is taken. |
| VillageFunds.EarlierRowsFirst | apps/cme-backend/src/villages/villages.service.ts:199-239 | Within a village a later row of a resource gives only when the earlier one has nothing left. |
| VillageFunds.EarlierVillagesFirst | apps/cme-backend/src/villages/villages.service.ts:199-239 | A later village gives of a resource only when the earlier ones have nothing left of it. |
| VillageFunds.SecondVillageIsFree | apps/cme-backend/src/villages/villages.service.ts:314-376 | An input at which a village that had to be affordable costs nothing. |
| VillageFunds.VillagesService.CheckIfHasEnoughResources | apps/cme-backend/src/villages/villages.service.ts:163-197 | The totals gathered in the loops decide whether 35000 of each base resource is there. |
| VillageFunds.VillagesService.RemoveResourcesForVillageCreation | apps/cme-backend/src/villages/villages.service.ts:199-239 | The nested loops perform the modelled greedy deduction. |
| VillageTransfers.EnoughMeans | apps/resources-ms/src/services/resources-ms-resources.service.ts:15-35 | The guard passes exactly when every requested type has a row holding the amount. |
| VillageTransfers.ExchangeGranted | apps/resources-ms/src/services/resources-ms-exchanges.service.ts:130-193 | An exchange is accepted exactly between two villages, for food, iron or wood only, for something at all, if the sender holds the last count asked for of each type. |
| VillageTransfers.ExchangeRefused | apps/resources-ms/src/services/resources-ms-exchanges.service.ts:130-193 | What each refusal means: the same village, a resource that is not base, an empty request, a type without a row at the sender (where the code crashes), or one with too little. |
| VillageTransfers.ExchangeChange | apps/resources-ms/src/services/resources-ms-exchanges.service.ts:130-235 | An accepted exchange moves each type's amount from sender to receiver, as far as the receiver has the row, and touches no other village. |
| VillageTransfers.ExchangeConserves | apps/resources-ms/src/services/resources-ms-exchanges.service.ts:207-219 | An exchange conserves a type's total if and only if none was sent or the receiver has a row for it. |
| VillageTransfers.ExchangeCanLose | apps/resources-ms/src/services/resources-ms-exchanges.service.ts:207-219 | An input at which 5 food are lost. |
| VillageTransfers.ExchangeNonNegative | apps/resources-ms/src/services/resources-ms-exchanges.service.ts:194-219 | An accepted exchange leaves no negative count if and only if each last requested count fits into the receiver's row, if there is one. |
| VillageTransfers.NegativeExchange | apps/resources-ms/src/services/resources-ms-exchanges.service.ts:194-219 | An input at which the receiver ends at -2. |
| VillageTransfers.LastCountWins | apps/resources-ms/src/services/resources-ms-exchanges.service.ts:152-181 | When a type is requested twice, its last count is the one that moves. |
| VillageTransfers.TransferConserves | apps/resources-ms/src/services/resources-ms-storage.service.ts:132-161 | Village row plus vault count is conserved by an accepted transfer if and only if it is a deposit or a withdrawal, or moves nothing. |
| VillageTransfers.OtherTypeCreates | apps/resources-ms/src/services/resources-ms-storage.service.ts:142-157 | An input at which 10 food become 20 in the village and 10 in the vault. |
| VillageTransfers.TransferConservesTypes | apps/resources-ms/src/services/resources-ms-storage.service.ts:79-161 | Each type is conserved over village and vault if and only if nothing is moved, or the transfer is a deposit or withdrawal of the vault's type or one that opens the vault. |
| VillageTransfers.MixedVault | apps/resources-ms/src/services/resources-ms-storage.service.ts:142-157 | An input at which food becomes iron. |
| VillageTransfers.DepositWithinCapacity | apps/resources-ms/src/services/resources-ms-storage.service.ts:100-130 | An accepted deposit ends at or under capacity if and only if the vault was open or the amount fits. |
| VillageTransfers.FirstDepositOverfills | apps/resources-ms/src/services/resources-ms-storage.service.ts:108-140 | An input at which 500 enter a vault for 100. |
| VillageTransfers.TransferNonNegative | apps/resources-ms/src/services/resources-ms-storage.service.ts:70-161 | An accepted transfer leaves village and vault non-negative if and only if each side that receives can take the count. |
| VillageTransfers.NegativeDeposit | apps/resources-ms/src/services/resources-ms-storage.service.ts:70-161 | An input at which the vault ends at -1000 and the village gains 1000. |
| VillageTransfers.WithdrawalGranted | apps/resources-ms/src/services/resources-ms-storage.service.ts:70-98 | A withdrawal is granted if and only if the vault and the village both hold the amount; it moves exactly that from the vault to the village. |
| VillageTransfers.DepositGranted | apps/resources-ms/src/services/resources-ms-storage.service.ts:70-161 | A deposit is granted if and only if the village holds the amount and the vault is unopened or below capacity; it moves the amount, or what still fits into an open vault. |
| VillageTransfers.DeniedBecause | apps/resources-ms/src/services/resources-ms-storage.service.ts:57-118 | A denial names the first demand that is not met: a known type, a row of it, enough in it, and for a withdrawal an open vault that holds the amount, for a deposit a vault that is not full. |
| VillageTransfers.EmptyVillageCannotWithdraw | apps/resources-ms/src/services/resources-ms-storage.service.ts:70-98 | An input at which the vault holds the amount and the withdrawal is refused. |
| VillageTransfers.DepositThenWithdraw | apps/resources-ms/src/services/resources-ms-storage.service.ts:49-161 | Withdrawing an uncut deposit is granted if and only if the village still holds as much and the vault was not overdrawn, and then restores both. |
| VillageTransfers.StorageService.VillageHasEnoughResources | apps/resources-ms/src/services/resources-ms-resources.service.ts:15-35 | The loop gives the modelled guard, including the crash on a missing row. |
| VillageTransfers.StorageService.AddOrRemoveResources | apps/resources-ms/src/services/resources-ms-exchanges.service.ts:73-96 | The in-place loop performs the set-based update on the village's rows. |
| VillageTransfers.StorageService.ExchangeResources | apps/resources-ms/src/services/resources-ms-exchanges.service.ts:130-252 | Takes exactly the modelled exchange and gives its refusal. |
| VillageTransfers.StorageService.TransferResourcesToStorage | apps/resources-ms/src/services/resources-ms-storage.service.ts:49-164 | Takes exactly the modelled vault transfer and gives its error. |
| WalletPath.PathsAreDistinct | apps/blockchain-ms/src/services/blockchain-ms-mkc-relay.service.ts:100-112 | For 15-byte ids the path recombines to the id's big-endian value, so two ids have the same path exactly when they are equal. |
| WalletPath.PathExactly | apps/blockchain-ms/src/services/blockchain-ms-mkc-relay.service.ts:104-107 | All four indices are below 2^31, and they give the number back if and only if it has at most 124 bits. |
| WalletPath.HexValue | apps/blockchain-ms/src/services/blockchain-ms-mkc-relay.service.ts:101-102 | Reading the hexadecimal form gives the big-endian value of the bytes. |

## Left out

- Controllers, DTO validation, guards, mail, websockets, clustering and configuration: plumbing without a state invariant.
- Chain calls, gas funding and key derivation: an answer of the chain is part of the event, and a movement log records what it accepted.
- Uniqueness of chain transaction hashes and of wallet rows per user: assumed, since a database error would need another fault model.
- Fractional or overlong token amounts, and counts that are not whole numbers: text that is no number is refused as in the code.
- Overlapping calls inside one service (for example the separate saves of attack creation, or the unawaited updates of a homecoming): each call is one step.
- Redis string keys, JSON texts and lexicographic order of equal scores: tickets are values and equal scores come in any order.
- `last_production_at` of barracks, which the producer writes and nothing in production reads.
- The endpoint that deletes an attack (apps/cme-backend/src/attacks/attacks.service.ts:271-273): it removes the row and leaves its ticket queued; runs of attacks keep every row.
- Return tickets written before loot was stored in them: the code keeps a branch for them, the model does not.
- Lost Redis writes in the attack services: production models them, battles are taken fault-free.
- The choice of attack travel time and the truce rules: the travel time and the refusal are inputs of a launch.
- Removal of empty automated villages and of their stock rows: such villages have no owner and take no part in attacks or production.
- The military exchange: its speed lookup reads a column the unit migration leaves null, and its availability check cannot fail.
- Rounding of floating-point powers: casualties are exact integers, and the yield of a number of facilities is a parameter.
- Price tables, unit descriptors, barrack tiers, guilds and leaderboards: finite tables that would only add easy members.
