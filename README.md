# FuelEU Maritime compliance core, in Dafny

This project models the core of a FuelEU Maritime compliance platform:

- **Compliance balance (CB) arithmetic.** The energy in scope is the fuel mass times 41,000 MJ/t. The CB is (target − actual GHG intensity) × energy, rounded to cents. The module also covers the percent difference between a route and the baseline, and the compliance test against the 2025 target of 89.3368 gCO₂e/MJ (2 % below 91.16).
- **Entities.** A ship's compliance record, a bank entry, a route (with its baseline flag), the CB value object and a pool.
- **Route table.** `findAll`, the baseline lookup and `setAsBaseline`, which leaves exactly one baseline. On top of it sit the `SetBaseline` and `GetComparison` use cases.
- **Banking and compliance use cases** over one compliance store: ship records keyed by ship and year, plus a bank ledger.
  - `GetAdjustedCB` is the stored CB plus the net banked amount.
  - `BankSurplus` moves a positive CB into the ledger.
  - `ApplyBanked` moves banked surplus back.
  - Neither banking operation changes any ship's adjusted CB.
  - `ComputeCB` stores the CB of the first route of the year.
- **Greedy pool allocation.** This is an imperative method over an array:
  - members are sorted by CB, largest first;
  - surplus ships, largest first, cover each deficit ship in turn;
  - the `Pool` entity's rules then validate the result.
- **`CreatePool` use case.** It gathers the members, allocates, builds the pool and writes each member's new CB back to the store.
- **In-memory JavaScript banking handlers** (`compute cb`, `bank`, `apply`, `records`). They are modelled as a class holding the `shipBalances` map and the `bankingRecords` log. Its invariant says that each ship's `banked` is the net of its own records.
- **The frontend `usePooling` hook and the frontend `Comparison` helpers.** The model includes the hook's contribution editing, its pool metrics, its three validation rules and its request building. Lemmas compare the hook's rules with the backend's.

Numbers are `real`: the model is exact where the source uses IEEE doubles. `Math.round` is modelled as floor(x + 0.5).

JavaScript's `Array.prototype.sort` is a library call. It is stable since ES2019, and the model captures it by a stable insertion sort with a proved contract: sorted, a permutation, and stable.

Three facts about the code that are easy to misread:

- `PoolAllocation.Allocate` returns the members in sorted order, largest balance first: `PoolAllocation.service.ts:13` sorts a copy, and line 34 returns that copy.
- 85 gCO₂e/MJ over 1000 t gives a CB of (89.3368 − 85) × 41,000,000 = 177,808,800 (`Calculations.ComplianceBalanceExample`).
- The percent difference is rounded to cents, so an increase below 0.005 % reports 0 (`Calculations.PercentDifferenceRoundsSmallIncreaseToZero`).

Conventions for the JavaScript handlers and the hook:

- Falsy request fields are modelled explicitly: `shipId == ""` and `year == 0` stand for a missing value, and `amount: Option<real>` is `None` when undefined.
- The API client's answer is a parameter (`Result`/`Outcome`), not a network call.

## Model

| member | source | states |
|---|---|---|
| Calculations.Round2 | backend/src/shared/utils/calculations.util.ts:27 | the result is a whole number of cents within (x − 0.005, x + 0.005], which pins it to floor(100x + 0.5)/100 |
| Calculations.Round2Unique | backend/src/shared/utils/calculations.util.ts:27 | the only whole-cents amount in (x − 0.005, x + 0.005] is Round2(x) |
| Calculations.Round2KeepsSign | backend/src/shared/utils/calculations.util.ts:27 | rounding never flips a surplus into a deficit or back |
| Calculations.Round2Monotone | backend/src/shared/utils/calculations.util.ts:27 | rounding to cents preserves order |
| Calculations.Round2OfCents | backend/src/shared/utils/calculations.util.ts:27 | an amount already in whole cents is unchanged by rounding |
| Calculations.EnergyInScope | backend/src/shared/utils/calculations.util.ts:7-9 | energy divided by 41,000 MJ/t gives back the fuel mass; positive fuel gives positive energy |
| Calculations.ComplianceBalance | backend/src/shared/utils/calculations.util.ts:20-28 | the CB is a whole number of cents within half a cent of (target − actual) × fuel × 41,000, i.e. that product rounded to cents |
| Calculations.ComplianceBalanceZeroAtTarget | backend/src/shared/utils/calculations.util.ts:20-28 | a ship exactly at the target has zero CB |
| Calculations.ComplianceBalanceSign | backend/src/shared/utils/calculations.util.ts:20-28 | for positive fuel, an intensity below the target gives CB ≥ 0 (surplus) and one above gives CB ≤ 0 (deficit) |
| Calculations.ComplianceBalanceDefaultTarget | backend/src/shared/utils/calculations.util.ts:20-24 | the default target is the 2025 target 89.3368 |
| Calculations.ComplianceBalanceExample | backend/src/shared/utils/calculations.util.ts:20-28 | 85 gCO₂e/MJ over 1000 t gives exactly 177,808,800 |
| Calculations.PercentDifference | backend/src/shared/utils/calculations.util.ts:34-37 | a zero baseline gives 0; otherwise the result is a whole number of cents within half a cent of (comparison/baseline − 1) × 100, i.e. that value rounded to cents |
| Calculations.PercentDifferenceOfEqual | backend/src/shared/utils/calculations.util.ts:34-37 | a route equal to the baseline differs by 0 % |
| Calculations.PercentDifferenceNonNegative | backend/src/shared/utils/calculations.util.ts:34-37 | a higher intensity than a positive baseline never reports a negative difference |
| Calculations.PercentDifferencePositive | backend/src/shared/utils/calculations.util.ts:34-37 | an increase of at least half a cent of a percent reports a positive difference |
| Calculations.PercentDifferenceRoundsSmallIncreaseToZero | backend/src/shared/utils/calculations.util.ts:34-37 | baseline 100000 and comparison 100001 report 0 % |
| Calculations.PercentDifferenceExample | backend/src/shared/utils/calculations.util.ts:34-37 | 100 → 110 reports 10 % |
| Calculations.IsCompliantBoundary | backend/src/shared/utils/calculations.util.ts:42-47 | a route exactly at the target is compliant and one above it is not |
| FuelEUConstants.TargetIsTwoPercentBelowReference | backend/src/shared/constants/fueleu.constants.ts:6-7 | the 2025 target is 98 % of 91.16 |
| FuelEUConstants.ComplianceWindowWellFormed | backend/src/shared/constants/fueleu.constants.ts:13-16 | the compliance years run from 2025 to 2050 |
| FuelEUConstants.VesselTypesAreDistinctAndComplete | backend/src/shared/constants/fueleu.constants.ts:19-25 | five vessel types, every type listed once, names distinct |
| FuelEUConstants.FuelTypesAreDistinctAndComplete | backend/src/shared/constants/fueleu.constants.ts:28-35 | six fuel types, every type listed once, names distinct |
| FrontendComparison.PercentDifference | frontend/src/core/domain/Comparison.ts:23-29 | a zero baseline gives 0; otherwise the result times the baseline is (comparison − baseline) × 100, unrounded |
| FrontendComparison.PercentDifferenceOfEqual | frontend/src/core/domain/Comparison.ts:23-29 | equal intensities differ by 0 % |
| FrontendComparison.BackendIsRoundedFrontend | frontend/src/core/domain/Comparison.ts:23-29 | the backend percent difference is the frontend one rounded to cents |
| FrontendComparison.CompliantChecksDifferOnlyAtTarget | frontend/src/core/domain/Comparison.ts:34-36 | the frontend's strict `<` implies the backend's `<=`, and they disagree exactly at the target |
| ComplianceBalanceValue.ComplianceBalance.Add | backend/src/core/domain/value-objects/ComplianceBalance.ts:24-26 | subtracting what was added gives back the original balance |
| ComplianceBalanceValue.ComplianceBalance.Subtract | backend/src/core/domain/value-objects/ComplianceBalance.ts:28-30 | the difference plus the subtrahend is the original value |
| ComplianceBalanceValue.ExactlyOneClassification | backend/src/core/domain/value-objects/ComplianceBalance.ts:8-18 | every balance is exactly one of surplus, deficit or neutral |
| ComplianceBalanceValue.AddThenSubtract | backend/src/core/domain/value-objects/ComplianceBalance.ts:24-30 | add and subtract are inverse |
| ComplianceBalanceValue.AddCommutes | backend/src/core/domain/value-objects/ComplianceBalance.ts:24-26 | addition commutes and zero is neutral |
| ShipCompliances.Validate | backend/src/core/domain/entities/ShipCompliance.ts:18-21 | a record is valid iff the ship id is non-empty and the year is at least 2025, with each error message |
| ShipCompliances.ShipCompliance.constructor | backend/src/core/domain/entities/ShipCompliance.ts:13-16 | a valid record keeps its props |
| ShipCompliances.ShipCompliance.New | backend/src/core/domain/entities/ShipCompliance.ts:13-21 | construction succeeds iff validation passes, and otherwise reports validation's error |
| ShipCompliances.ShipCompliance.UpdateCB | backend/src/core/domain/entities/ShipCompliance.ts:36-38 | only the CB changes, to the new value |
| ShipCompliances.ShipCompliance.ToJSON | backend/src/core/domain/entities/ShipCompliance.ts:40-42 | the props are returned unchanged |
| ShipCompliances.SurplusDeficitClassification | backend/src/core/domain/entities/ShipCompliance.ts:28-34 | the entity's surplus and deficit tests agree with the CB value object and never both hold |
| BankEntries.NewBankEntry | backend/src/core/domain/entities/BankEntry.ts:12-20 | an entry is built iff the ship id is non-empty and the amount is positive, with each error message |
| BankEntries.BankEntryAmountPositive | backend/src/core/domain/entities/BankEntry.ts:17-25 | a built entry has a positive amount and keeps its ship and year |
| BankEntries.AppliedLineRejectedAsWritten | backend/src/core/application/use-cases/banking/ApplyBanked.usecase.ts:48-55 | the −amount line an apply writes fails the entity check (Findings) |
| BankEntries.NewLedgerEntry | backend/src/adapters/outbound/postgres/repositories/BankEntryRepository.ts:26-46 | the corrected entry accepts any non-zero amount and agrees with the entity on positive amounts |
| BankEntries.LedgerEntryAcceptsWrittenLines | backend/src/core/application/use-cases/banking/ApplyBanked.usecase.ts:48-55 | both the bank line and the apply line are accepted by the corrected entry |
| Routes.Validate | backend/src/core/domain/entities/Route.ts:26-34 | a route is valid iff its id is non-empty, its intensity, fuel and distance are positive and its year is at least 2020; each failing guard, in source order, gives its own message |
| Routes.Route.constructor | backend/src/core/domain/entities/Route.ts:21-24 | a valid route keeps its props |
| Routes.Route.New | backend/src/core/domain/entities/Route.ts:21-34 | construction succeeds iff validation passes, and otherwise reports validation's error |
| Routes.Route.SetAsBaseline | backend/src/core/domain/entities/Route.ts:69-71 | only the baseline flag changes, to true |
| Routes.Route.RemoveAsBaseline | backend/src/core/domain/entities/Route.ts:73-75 | only the baseline flag changes, to false |
| Routes.Route.ToJSON | backend/src/core/domain/entities/Route.ts:77-79 | the props are returned unchanged |
| RouteStore.FindAll | backend/src/adapters/outbound/postgres/repositories/RouteRepository.ts:7-34 | a row is returned iff it is in the table and matches the year, where a falsy year matches every row |
| RouteStore.FindAllConcat | backend/src/adapters/outbound/postgres/repositories/RouteRepository.ts:24-33 | filtering distributes over concatenation, so the kept rows stay in table order |
| RouteStore.FindAllHead | backend/src/adapters/outbound/postgres/repositories/RouteRepository.ts:24-33 | the first row returned is the first row of the table that matches the year |
| RouteStore.FindAllWithoutFilter | backend/src/adapters/outbound/postgres/repositories/RouteRepository.ts:7-34 | without a year filter the whole table is returned in order |
| RouteStore.FindByRouteId | backend/src/adapters/outbound/postgres/repositories/RouteRepository.ts:41-47 | a route is found iff some row has that id, and the found row has it |
| RouteStore.FindBaseline | backend/src/adapters/outbound/postgres/repositories/RouteRepository.ts:49-54 | a baseline is found iff some row is flagged, and the found row is flagged |
| RouteStore.SingleBaseline | backend/src/adapters/outbound/postgres/repositories/RouteRepository.ts:132-156 | after setting a baseline, exactly the rows with that id are flagged, and everything else is unchanged |
| RouteStore.WithBaselineIdempotent | backend/src/adapters/outbound/postgres/repositories/RouteRepository.ts:132-156 | setting the same baseline twice equals setting it once |
| RouteStore.RouteTable.SetAsBaseline | backend/src/adapters/outbound/postgres/repositories/RouteRepository.ts:132-156 | its two loops first clear every flag, then flag the chosen route; it returns that route if it exists; for an absent id every flag ends cleared (committed at line 148 before the mapping at line 149 throws) and `None` stands for the error |
| RouteStore.WithBaselineAbsent | backend/src/adapters/outbound/postgres/repositories/RouteRepository.ts:138-149 | for an absent id, no row is flagged afterwards and no row is found |
| RouteUseCases.SetBaseline | backend/src/core/application/use-cases/route/SetBaseline.usecase.ts:8-17 | an unknown route id fails with "Route not found" and changes nothing; otherwise the table has exactly that baseline |
| RouteUseCases.OtherRoutes | backend/src/core/application/use-cases/route/GetComparison.usecase.ts:29-30 | exactly the routes with a different id are kept |
| RouteUseCases.OtherRoutesConcat | backend/src/core/application/use-cases/route/GetComparison.usecase.ts:29-30 | leaving out an id distributes over concatenation, so the kept routes stay in table order |
| RouteUseCases.CompareAll | backend/src/core/application/use-cases/route/GetComparison.usecase.ts:29-38 | one entry per route, each with the backend percent difference and the compliance test |
| RouteUseCases.GetComparison | backend/src/core/application/use-cases/route/GetComparison.usecase.ts:15-44 | fails with "No baseline route set" iff no route is flagged; otherwise compares every other route with the baseline |
| RouteUseCases.ComparisonAfterSetBaseline | backend/src/core/application/use-cases/route/GetComparison.usecase.ts:15-44 | after setting a baseline among unique route ids, the comparison succeeds with that baseline and covers every other route |
| RouteUseCases.OtherRoutesOfUnique | backend/src/core/application/use-cases/route/GetComparison.usecase.ts:29-30 | with unique ids, removing the baseline removes exactly one route |
| RouteUseCases.OtherRoutesNone | backend/src/core/application/use-cases/route/GetComparison.usecase.ts:29-30 | an absent id removes nothing |
| ComplianceStore.Lookup | backend/src/adapters/outbound/postgres/repositories/ShipComplianceRepository.ts:9-18 | a read succeeds iff the row exists and passes the entity check; a missing row reports "no compliance data" |
| ComplianceStore.TotalBankedAppend | backend/src/adapters/outbound/postgres/repositories/BankEntryRepository.ts:18-24 | appending a ledger line adds its amount exactly when it is for that ship and year |
| ComplianceStore.TotalBankedWithoutLines | backend/src/adapters/outbound/postgres/repositories/BankEntryRepository.ts:18-24 | no lines for a ship and year give a total of 0 (the SQL `COALESCE`) |
| ComplianceUseCases.AdjustedCB | backend/src/core/application/use-cases/compliance/GetAdjustedCB.usecase.ts:11-31 | fails iff the record read fails, otherwise gives the stored CB plus the net banked total |
| ComplianceUseCases.AdjustedWithoutLedgerLines | backend/src/core/application/use-cases/compliance/GetAdjustedCB.usecase.ts:11-31 | a ship with no ledger lines has adjusted CB equal to its stored CB |
| ComplianceUseCases.FirstRouteBalance | backend/src/core/application/use-cases/compliance/ComputeCB.usecase.ts:15-28 | there is no balance iff no route matches the year; otherwise it is the CB of the first matching route in table order (`routes[0]`) |
| ComplianceUseCases.ComputeCB | backend/src/core/application/use-cases/compliance/ComputeCB.usecase.ts:13-52 | no matching route fails; otherwise it updates an existing record's CB or inserts a new one, keeping the ledger |
| BankingUseCases.MoveKeepsAdjusted | backend/src/core/application/use-cases/banking/BankSurplus.usecase.ts:29-37 | moving an amount from the stored CB into the ledger leaves every adjusted CB unchanged |
| BankingUseCases.BankSurplus | backend/src/core/application/use-cases/banking/BankSurplus.usecase.ts:12-40 | a missing record fails; a CB ≤ 0 fails and changes nothing; otherwise the full CB is banked and every adjusted CB is kept |
| BankingUseCases.ApplyBanked | backend/src/core/application/use-cases/banking/ApplyBanked.usecase.ts:11-62 | corrected use case of Findings row 1: succeeds iff the record is readable and 0 < amount ≤ banked total; a failure changes nothing; success adds the amount to the CB, appends one −amount line and keeps every adjusted CB |
| BankingUseCases.ApplyBankedAsWritten | backend/src/core/application/use-cases/banking/ApplyBanked.usecase.ts:11-62 | as written: always fails; it fails with "Bank amount must be positive" exactly when the corrected apply succeeds, and then the CB update and the −amount line both stand |
| Pools.CheckMembers | backend/src/core/domain/entities/Pool.ts:33-40 | passes iff every member keeps both rules; otherwise reports the first member that breaks one |
| Pools.ValidatePool | backend/src/core/domain/entities/Pool.ts:22-41 | a pool passes iff it has at least two members, a non-negative sum before pooling and every member keeps the rules; each error names a member that breaks it |
| Pools.NewPool | backend/src/core/domain/entities/Pool.ts:17-20 | a pool is built iff validation passes, keeping its props, and otherwise reports validation's error |
| Pools.SumBeforeConcat | backend/src/core/domain/entities/Pool.ts:43-45 | the before-sum of a concatenation is the sum of the parts |
| Pools.SumAfterConcat | backend/src/core/domain/entities/Pool.ts:55-57 | the after-sum of a concatenation is the sum of the parts |
| Pools.SumAfterUpdate | backend/src/core/domain/entities/Pool.ts:55-57 | replacing one member changes the after-sum by exactly that member's change |
| PoolSorting.SortByCbDesc | backend/src/core/application/services/PoolAllocation.service.ts:13 | the result is sorted by CB, largest first, and is a permutation of the input |
| PoolSorting.SortIsStable | backend/src/core/application/services/PoolAllocation.service.ts:13 | members with equal CB keep their relative order |
| PoolSorting.SortKeepsSums | backend/src/core/application/services/PoolAllocation.service.ts:13 | sorting keeps both pool sums |
| PoolSorting.SortKeepsMembers | backend/src/core/application/services/PoolAllocation.service.ts:13 | sorting keeps exactly the same members |
| PoolSorting.SortShipIds | backend/src/core/application/services/PoolAllocation.service.ts:13 | sorting keeps the multiset of ship ids |
| PoolSorting.SortKeepsDistinct | backend/src/core/application/services/PoolAllocation.service.ts:13 | sorting keeps distinct ship ids distinct |
| PoolAllocation.Transfer | backend/src/core/application/services/PoolAllocation.service.ts:27-30 | one transfer lowers the surplus member and raises the deficit member by the amount; nothing else changes and the after-sum is kept |
| PoolAllocation.CoverDeficit | backend/src/core/application/services/PoolAllocation.service.ts:21-31 | the inner loop over surplus members moves at most the deficit, largest surplus first, and no surplus goes negative |
| PoolAllocation.SortMembers | backend/src/core/application/services/PoolAllocation.service.ts:13 | the array becomes the stable descending sort of its old contents |
| PoolAllocation.FindBlocks | backend/src/core/application/services/PoolAllocation.service.ts:16-17 | in sorted order the surplus filter is a prefix and the deficit filter a suffix |
| PoolAllocation.Distribute | backend/src/core/application/services/PoolAllocation.service.ts:20-32 | the outer loop processes every deficit member in order |
| PoolAllocation.Allocate | backend/src/core/application/services/PoolAllocation.service.ts:8-35 | the result is the sorted members with only balances after pooling moved; the after-sum is kept; zero members are untouched; surplus members only give and never go negative; deficit members only receive and never more than their deficit; larger surpluses give first; a feasible balanced pool covers every deficit and passes the `Pool` rules |
| PoolAllocation.CoveredPoolPasses | backend/src/core/domain/entities/Pool.ts:22-41 | an allocation within bounds that covers every deficit passes pool validation |
| PoolAllocation.AllocationKeepsSumBefore | backend/src/core/application/services/PoolAllocation.service.ts:8-35 | the allocation keeps the sum before pooling |
| PoolAllocation.AllocationKeepsShipIds | backend/src/core/application/services/PoolAllocation.service.ts:8-35 | the allocation keeps the multiset of ship ids, and distinct ids stay distinct |
| PoolAllocation.AllocatedPoolTotals | backend/src/core/domain/entities/Pool.ts:51-57 | a pool built from an allocation reports equal totals before and after pooling |
| PoolAllocation.SumAfterBalanced | backend/src/core/application/use-cases/pooling/CreatePool.usecase.ts:37-41 | members entering with cbAfter = cbBefore have equal sums |
| PoolingUseCase.GatherMembers | backend/src/core/application/use-cases/pooling/CreatePool.usecase.ts:25-42 | succeeds iff every requested ship has a readable record, giving one member per id in request order; otherwise reports the first failing read |
| PoolingUseCase.GatheredMembers | backend/src/core/application/use-cases/pooling/CreatePool.usecase.ts:25-42 | gathered members carry the requested ids and enter with cbAfter = cbBefore |
| PoolingUseCase.Gather | backend/src/core/application/use-cases/pooling/CreatePool.usecase.ts:25-42 | the loop computes exactly the gathered members or the first failing read |
| PoolingUseCase.WriteBack | backend/src/core/application/use-cases/pooling/CreatePool.usecase.ts:54-65 | writing back keeps the set of records and their ids |
| PoolingUseCase.WriteBackOutside | backend/src/core/application/use-cases/pooling/CreatePool.usecase.ts:54-65 | records of other years or of ships outside the pool are unchanged |
| PoolingUseCase.WriteBackDistinct | backend/src/core/application/use-cases/pooling/CreatePool.usecase.ts:54-65 | with distinct ids each member's record ends at its allocated balance |
| PoolingUseCase.WriteBackMembers | backend/src/core/application/use-cases/pooling/CreatePool.usecase.ts:54-65 | the loop's new store is the write-back of the members, and the ledger is unchanged |
| PoolingUseCase.StoredTotalConcat | backend/src/core/application/use-cases/pooling/CreatePool.usecase.ts:25-65 | the stored total over a concatenation of ids is the sum of the parts |
| PoolingUseCase.StoredTotalPermutation | backend/src/core/application/use-cases/pooling/CreatePool.usecase.ts:25-65 | the stored total does not depend on the order of the ids |
| PoolingUseCase.StoredTotalIsSumAfter | backend/src/core/application/use-cases/pooling/CreatePool.usecase.ts:54-65 | if every member's record holds its after-balance, the stored total is the pool's after-sum |
| PoolingUseCase.StoredTotalIsSumBefore | backend/src/core/application/use-cases/pooling/CreatePool.usecase.ts:25-42 | if every member's record holds its before-balance, the stored total is the pool's before-sum |
| PoolingUseCase.AllocatedPoolOutcome | backend/src/core/application/use-cases/pooling/CreatePool.usecase.ts:45-51 | the allocated pool passes iff the sum before pooling is non-negative; otherwise the error is the negative sum |
| PoolingUseCase.CreatePool | backend/src/core/application/use-cases/pooling/CreatePool.usecase.ts:17-68 | fewer than two ids fail; a failed read fails with its error; otherwise it succeeds iff the sum is non-negative, storing the allocated pool and writing back each member's new CB; a failure changes nothing |
| PoolingUseCase.GatherFailsFrom | backend/src/core/application/use-cases/pooling/CreatePool.usecase.ts:28-35 | the first missing ship decides the error |
| PoolingUseCase.GatheredShipsStored | backend/src/core/application/use-cases/pooling/CreatePool.usecase.ts:25-42 | every requested ship of a successful gather has a stored record |
| PoolingUseCase.AllocatedShipIds | backend/src/core/application/use-cases/pooling/CreatePool.usecase.ts:45 | the allocation carries exactly the requested ids |
| PoolingUseCase.AllocatedShipsStored | backend/src/core/application/use-cases/pooling/CreatePool.usecase.ts:54-65 | every allocated ship has a record to write back to |
| PoolingUseCase.GatheredTotal | backend/src/core/application/use-cases/pooling/CreatePool.usecase.ts:25-42 | the stored total over the requested ids is the gathered pool's sum |
| PoolingUseCase.CreatePoolConserves | backend/src/core/application/use-cases/pooling/CreatePool.usecase.ts:17-68 | with distinct ids, the stored total CB of the pooled ships is unchanged by pooling |
| PoolingUseCase.DuplicateRequestMembers | backend/src/core/application/use-cases/pooling/CreatePool.usecase.ts:25-42 | the request [A, B, B] gathers B twice |
| PoolingUseCase.DuplicateRequestAllocation | backend/src/core/application/services/PoolAllocation.service.ts:8-35 | A's surplus of 10 covers both copies of B's −5 |
| PoolingUseCase.CoveredAllocation | backend/src/core/application/services/PoolAllocation.service.ts:8-35 | a feasible balanced pool's allocation covers every deficit and keeps the sum |
| PoolingUseCase.DuplicateShipBreaksConservation | backend/src/core/application/use-cases/pooling/CreatePool.usecase.ts:17-68 | with a duplicate id, the stored total over A and B drops from 5 to 0 (Findings) |
| PoolingUseCase.DuplicateRequestWriteBack | backend/src/core/application/use-cases/pooling/CreatePool.usecase.ts:54-65 | writing back the duplicate allocation sets both A and B to 0 |
| PoolingUseCase.FirstDuplicate | backend/src/core/application/use-cases/pooling/CreatePool.usecase.ts:18-42 | there is no duplicate iff the ids are distinct; a reported duplicate occurs twice |
| PoolingUseCase.CreatePoolChecked | backend/src/core/application/use-cases/pooling/CreatePool.usecase.ts:17-68 | duplicate ids are rejected and change nothing; otherwise it behaves as `CreatePool` and conserves the stored total (Findings) |
| BankingRoutes.Banked | frontend/my-app/backend-banking-routes.js:85-91 | banking keeps cb + banked, and a positive amount raises banked and lowers cb |
| BankingRoutes.Applied | frontend/my-app/backend-banking-routes.js:155-161 | applying keeps cb + banked, and an amount within the banked total leaves it non-negative |
| BankingRoutes.AppliedUndoesBanked | frontend/my-app/backend-banking-routes.js:85-161 | apply undoes bank and bank undoes apply |
| BankingRoutes.NetBankedAppend | frontend/my-app/backend-banking-routes.js:103 | a new record changes only its own ship's net banked amount, by its signed amount |
| BankingRoutes.ForShip | frontend/my-app/backend-banking-routes.js:212 | a record is kept iff it belongs to the ship |
| BankingRoutes.ForShipAppend | frontend/my-app/backend-banking-routes.js:212 | filtering after a push equals filtering and then pushing if the record matches |
| BankingRoutes.ComputeCbAsWritten | frontend/my-app/backend-banking-routes.js:25-55 | a missing ship or year fails; a success never reports 0, and a non-zero stored cb is reported as is (Findings) |
| BankingRoutes.SettledShipReportedAsPlaceholder | frontend/my-app/backend-banking-routes.js:38 | a known ship whose cb is 0 is reported as 15.5 |
| BankingRoutes.ComputeCb | frontend/my-app/backend-banking-routes.js:25-55 | a missing ship or year fails; a known ship reports its stored cb and an unknown one 15.5; agrees with the handler whenever that reports a non-zero cb |
| BankingRoutes.ComputeCbAfterBank | frontend/my-app/backend-banking-routes.js:38 | after banking, the corrected handler reports the lowered cb |
| BankingRoutes.EnterShipKeepsConsistent | frontend/my-app/backend-banking-routes.js:81-83 | entering a new ship with nothing banked keeps the ledger invariant |
| BankingRoutes.RecordKeepsConsistent | frontend/my-app/backend-banking-routes.js:94-103 | updating a balance and pushing its record keeps the ledger invariant |
| BankingRoutes.BankingState.constructor | frontend/my-app/backend-banking-routes.js:16-19 | the store starts with SHIP001 at cb 15.5 and nothing banked, and no records |
| BankingRoutes.BankingState.Bank | frontend/my-app/backend-banking-routes.js:61-124 | succeeds iff all fields are present and the amount is positive; a failure changes nothing; success enters an unknown ship at cb = amount, moves the amount into banked and pushes a record with the next id, cb before and cb after |
| BankingRoutes.BankingState.Apply | frontend/my-app/backend-banking-routes.js:130-194 | missing fields fail and change nothing; an unknown ship is entered at zero even when the apply then fails; an amount above the banked total fails with the available amount; otherwise it moves the amount back and pushes a record |
| BankingRoutes.BankingState.Records | frontend/my-app/backend-banking-routes.js:200-228 | a missing ship id fails; otherwise it returns exactly that ship's records in order |
| BankingRoutes.BankingState.BankedIsNetOfRecords | frontend/my-app/backend-banking-routes.js:16-194 | each ship's banked amount is the net of its own records and never negative |
| BankingRoutes.NetBankedOfOwnRecords | frontend/my-app/backend-banking-routes.js:212 | a ship's net banked amount over its filtered records equals that over all records |
| PoolingHook.MembersFromShips | frontend/my-app/src/adapters/ui/hooks/usePooling.ts:34-42 | one member per fetched ship, with name "Ship " + id, cbBefore = cbAfter = adjusted CB, contribution 0 |
| PoolingHook.WithContribution | frontend/my-app/src/adapters/ui/hooks/usePooling.ts:50-62 | only members with that ship id change: contribution set, and cbAfter = cbBefore − contribution |
| PoolingHook.LatestContributionWins | frontend/my-app/src/adapters/ui/hooks/usePooling.ts:50-62 | a second contribution edit overrides the first |
| PoolingHook.Metrics | frontend/my-app/src/adapters/ui/hooks/usePooling.ts:64-77 | the metrics are the sum of cbBefore, the sum of contributions, and the sum after as the first minus the second |
| PoolingHook.MetricsMatchMembers | frontend/my-app/src/adapters/ui/hooks/usePooling.ts:64-77 | for consistent members, the metric sum after equals the sum of their cbAfter |
| PoolingHook.FetchedMetrics | frontend/my-app/src/adapters/ui/hooks/usePooling.ts:34-77 | right after a fetch, nothing is contributed and the sums before and after agree |
| PoolingHook.ContributionKeepsSumBefore | frontend/my-app/src/adapters/ui/hooks/usePooling.ts:50-70 | editing a contribution leaves the sum before unchanged |
| PoolingHook.Validate | frontend/my-app/src/adapters/ui/hooks/usePooling.ts:79-119 | valid iff no errors iff all three rules hold; each rule's error is present iff that rule fails; errors appear in rule order |
| PoolingHook.HookRulesImplyBackendRules | frontend/my-app/src/adapters/ui/hooks/usePooling.ts:93-107 | members the hook accepts keep the backend's per-member rules |
| PoolingHook.HookStricterOnZeroBalance | frontend/my-app/src/adapters/ui/hooks/usePooling.ts:101-104 | a ship starting at 0 and ending at −1 is rejected by the hook but accepted by the backend |
| PoolingHook.HookAcceptsNegativeSumBefore | frontend/my-app/src/adapters/ui/hooks/usePooling.ts:83-91 | a pool with a negative sum before pooling, made whole by contributions, passes the hook but not the backend |
| PoolingHook.RequestMembers | frontend/my-app/src/adapters/ui/hooks/usePooling.ts:131-137 | the request lists every member's id and contribution, in order |
| PoolingHook.PoolingHookState.constructor | frontend/my-app/src/adapters/ui/hooks/usePooling.ts:16-20 | the hook starts with no members and no error |
| PoolingHook.PoolingHookState.FetchShips | frontend/my-app/src/adapters/ui/hooks/usePooling.ts:22-48 | a successful fetch replaces the members with the fetched ships and clears the error; a failure keeps the members and records the error |
| PoolingHook.PoolingHookState.UpdateContribution | frontend/my-app/src/adapters/ui/hooks/usePooling.ts:50-62 | the members become the edited members |
| PoolingHook.PoolingHookState.CreatePool | frontend/my-app/src/adapters/ui/hooks/usePooling.ts:121-147 | an invalid pool posts nothing, returns false and records the validation errors; a valid one posts the year and members and returns whether the client succeeded |

## Left out

- HTTP routing, SQL text, database transactions, concurrency, timestamps, logging and the loading flag of the hook. These are transport and UI concerns. The stores are modelled as maps and sequences updated in place.
- Floating point. All quantities are exact `real`s, so the model does not capture IEEE rounding of the intermediate products.
- Error message formatting: `toFixed(2)`, the interpolated "Available: …" text and `errors.join(", ")`. Errors are datatype values carrying the same data.
- Non-numeric request amounts in the JavaScript handlers (`null`, strings). An amount is either absent or a number.
- `findAll`'s `vesselType` and `fuelType` filters (`RouteRepository.ts:12-22`). Only the year filter feeds the core use cases.
- `findById` and the insert and update paths of the route repository. They are plain row mapping.
- `GetAllRoutes` and `GetBankRecords`. They pass a repository result straight through.
- The `PoolRepository` transaction. The pool insert and member rows are modelled by appending to the pool table; the SQL-level ordering of the validation around `COMMIT` is not modelled.
- The hook's `ships` state. It holds the raw fetch result and only feeds the members.
- PoolingUseCase.GatherMembers: only the entity checks the repository applies are modelled. A database error on read is not modelled.
- ComplianceUseCases.FirstRouteBalance: the table sequence is taken to be already in `findAll`'s `created_at DESC` order, since timestamps are not modelled. The "first route" is the first matching row of that sequence.

## Findings

| source | as written | input that shows it | evidently intended | confidence | as-written member | corrected member |
|---|---|---|---|---|---|---|
| backend/src/core/application/use-cases/banking/ApplyBanked.usecase.ts:48-55 | the apply writes a ledger line of −amount through the bank-entry repository, which maps the inserted row through `BankEntry`, whose validation rejects any amount ≤ 0 (`BankEntry.ts:17-20`); the CB update and the insert have already happened when it throws; the whole use case as written is BankingUseCases.ApplyBankedAsWritten, the corrected one BankingUseCases.ApplyBanked | any successful apply, e.g. amount 5 with 5 or more banked | ledger lines of either sign are valid; only the bank action demands a positive amount | not executed | BankEntries.AppliedLineRejectedAsWritten | BankEntries.NewLedgerEntry |
| backend/src/core/application/use-cases/pooling/CreatePool.usecase.ts:17-68 | the request's ship ids are not checked for duplicates, so a ship is gathered twice and written back twice | ships A (CB 10) and B (CB −5) in 2025, request [A, B, B]: A gives 5 to each copy of B, and the stored total over A and B drops from 5 to 0 | pooling moves CB between distinct ships and conserves their total | not executed | PoolingUseCase.DuplicateShipBreaksConservation | PoolingUseCase.CreatePoolChecked |
| frontend/my-app/backend-banking-routes.js:38 | `shipBalances[shipId]?.cb \|\| 15.5` falls back to the placeholder when a known ship's cb is 0, not only when the ship is unknown | bank SHIP001's whole 15.5: its cb becomes 0 and compute-cb reports 15.5 | fall back only for unknown ships (`??`) | not executed | BankingRoutes.ComputeCbAsWritten | BankingRoutes.ComputeCb |
