# Clearpool Prime: accrual calculator, pool indexer and helpers in Dafny

This project models the off-chain logic of the Clearpool Prime protocol:

- The SDK's accrual calculator (`sdk/src/pool.ts`). It covers:
  - fixed-point interest, spread and penalty arithmetic, with scale 10^18, a 360-day year and truncating `BigNumber` division;
  - linear pro-rating of a position's interest;
  - the monthly payment, overdue and penalty periods of a position;
  - the per-position amounts and the nine per-id tables the SDK reports for a lender.
- The subgraph that indexes the protocol's events (`subgraph/mapping/*.ts`). The graph store is the class `GraphStore.Store`, with one map per entity type (pools, pool members, positions, repayments, repayment payments, rolls, callbacks, transactions, the `_Prime` singleton and Prime members). Every event handler is a method that changes exactly the maps its `modifies` clause names. It covers:
  - pool creation;
  - activation with its monthly repayment schedule;
  - rolls, callbacks, whitelisting, lending, repaying and interest repayment;
  - the Prime member registry;
  - the factory and Prime handlers;
  - the `_Prime` singleton.
- The SDK and protocol helpers:
  - address-array hex encoding;
  - `toWei`;
  - in-place array batching;
  - the argument validators;
  - the coin registry built from the network configuration;
  - `allowUndefinedArgs` and the protocol constants;
  - object filtering in the deploy configuration;
  - the line rewriting of `updateEnvFile`.

**Numbers.** Ethers `BigNumber` and graph `BigInt` are unbounded integers, and `div` truncates toward zero (`BigNum.Quot`). A division by zero is the calculator's only error (`SdkPool.Thrown`). `Number(...)` conversions of timestamps are the same integers.

**Store writes.** Loading an entity is a map lookup and `save()` is a map update. `store.remove` is a key removal. Every handler saves an entity under the key it was loaded from. This is the entity's `id`, because every entity of the subgraph is created under its own id.

**Loops.** Each loop of the source is a `while` loop proved against a recursive function of the old state. Examples:
- the schedule loops (`RepaymentSchedule.ScheduleFrom`, `RepaymentSchedule.Scheduled`);
- the position loops (`MemberAccounting.RepayPositions`, `MemberAccounting.PayInterestPositions`, `MemberAccounting.RollPositionsTable`);
- the registry loops (`PrimeRegistry.JoinPools`, `PrimeRegistry.LeavePools`);
- the coin loop (`SdkConstants.CoinsFold`);
- the `.env` line map (`EnvFile.Rewritten`).

The properties are proved about those functions.

**Hex strings.** `ethers.utils.hexlify` is modelled as ethers defines it. It lower-cases a well-formed hex string of even length, and throws on anything else (`EthersUtils.Hexlify`).

**Source disagrees with the description.** Where the protocol's description and the code disagree, the code is followed, and the handlers use the code as written. Three places stand out:
- The subgraph's `handleSwitchVisibilityToPublic` never adds the pool to `_Prime.publicPools`. The model does not add it either.
- `handleRemoveFromPublicPool` removes the first public pool when the pool is not listed. `PoolMapping.LenderWhitelist` calls it as written (`PrimeRegistry.RemoveFromPublicPoolAsWritten`). A pool whitelisted once, switched back to public and whitelisted again therefore removes another pool (`PoolMapping.WhitelistUnlistedDropsFirst`).
- `handleRemovePrimeMember` removes the memberships of every Prime member, not only the one removed. `PrimeMapping.MemberBlacklist` calls it as written (`PrimeRegistry.RemovePrimeMemberAsWritten`).

Both removals are listed under Findings. The intended removals are modelled and proved beside them, but no handler uses them.

**Position ids.** `createPositionId` takes its index as an AssemblyScript `number` (an `f64`), whose `toString()` writes an integral value with a trailing `.0`. A lender's first position in a pool is therefore `<pool>-<lender>-0.0` (`SubgraphIds.CreatePositionId`).

## Model

| member | source | states |
|---|---|---|
| SdkPool.CalcAnualRate | sdk/src/pool.ts:843-845 | a zero rate or a zero period gives a zero yearly share |
| SdkPool.CalcInterest | sdk/src/pool.ts:847-849 | zero principal, rate or period earns no interest |
| SdkPool.CalcInterestForRate | sdk/src/pool.ts:851-853 | zero interest or a zero rate gives a zero spread |
| SdkPool.FixedPointFloors | sdk/src/pool.ts:843-853 | for non-negative inputs each helper is the floor of the exact quotient by `YEAR` = 31104000 or by 10^18 |
| SdkPool.FullYearRate | sdk/src/pool.ts:843-845 | over one 360-day year the share is exactly the yearly rate |
| SdkPool.SpreadAtMostInterest | sdk/src/pool.ts:851-853 | a spread at a rate of at most 100% lies between 0 and the interest |
| SdkPool.WorkedExample | protocol/test/Pool.ts:2031-2043 | 10,000,000 at 10% for a year earns 1,000,000, whose 10% spread is 100,000 |
| SdkPool.GenInterest | sdk/src/pool.ts:855-862 | pro-rating throws (division by zero) exactly when maturity equals the start date |
| SdkPool.GenInterestEndpoints | sdk/src/pool.ts:855-862 | nothing has accrued at the start date and the whole interest at maturity |
| SdkPool.GenInterestMonotone | sdk/src/pool.ts:855-862 | accrued interest never decreases as the current time grows |
| SdkPool.GenInterestBounded | sdk/src/pool.ts:855-862 | between start and maturity the accrued interest lies in `[0, totalInterest]` |
| SdkPool.NextPaymentDate | sdk/src/pool.ts:883-884 | the next payment date is the earlier of one round after the last payment and maturity |
| SdkPool.Timestamps | sdk/src/pool.ts:864-918 | the periods report the current time as `now` |
| SdkPool.CalculateTimestamps | sdk/src/pool.ts:864-918 | the statement-by-statement computation yields exactly the periods `Timestamps` defines |
| SdkPool.BulletPeriods | sdk/src/pool.ts:872-893 | a bullet pool has zero next-payment and interest-penalty periods |
| SdkPool.PenaltyPeriod | sdk/src/pool.ts:900-909 | an unpaid position is penalised for `max(0, now - maturity)`; a position paid no later than maturity is not penalised |
| SdkPool.MonthlyPeriods | sdk/src/pool.ts:875-893 | the interest penalty runs from the next payment date; a position opened by the last payment and not yet overdue owes exactly the period up to the next payment date, with no penalty |
| SdkPool.TotalPeriod | sdk/src/pool.ts:895 | the total period runs from the position's start to the later of now and maturity |
| SdkPool.PositionAmounts | sdk/src/pool.ts:732-818 | the amounts throw exactly when the position's period is empty and the pro-rating is reached; otherwise the balance is the position's amount |
| SdkPool.GetPositionAmounts | sdk/src/pool.ts:732-818 | the statement-by-statement computation, with `due` reassigned, yields exactly `PositionAmounts` |
| SdkPool.Penalties | sdk/src/pool.ts:742-753 | both penalties are interest at the penalty rate on the amount over the penalty and the interest-penalty periods |
| SdkPool.DueBeforeEnd | sdk/src/pool.ts:777-796 | until `endAt` an unpaid position owes its amount plus its full interest, whatever the current time |
| SdkPool.DueSplitsIntoSpread | sdk/src/pool.ts:755-798 | a paid or overdue position owes amount plus accrued interest, and `dueWithoutSpread + spread == due` |
| SdkPool.PaidOnTime | sdk/src/pool.ts:755-763 | a position paid by `endAt` accrued exactly its interest |
| SdkPool.NoDueInterest | sdk/src/pool.ts:800-815 | only an unpaid position of a monthly pool has monthly interest due |
| SdkPool.AccruedAtAndAfterEnd | sdk/src/pool.ts:777-783 | an unpaid position has accrued its full interest exactly at `endAt`, and at least that afterwards |
| SdkPool.AccruedBeforeEnd | sdk/src/pool.ts:777-783 | before `endAt` an unpaid position has accrued a share of its interest between 0 and all of it |
| SdkPool.DueInterestWithoutSpreadBounded | sdk/src/pool.ts:800-815 | with a spread rate of at most 100%, the monthly interest without spread lies between 0 and the monthly interest |
| SdkPool.Ids | sdk/src/pool.ts:693-694 | the ids are the positions' ids, in order |
| SdkPool.Outcomes | sdk/src/pool.ts:693 | there is one outcome per position |
| SdkPool.AddPosition | sdk/src/pool.ts:692-709 | one step of the reduce writes the next position's amounts into all nine tables, or throws its error |
| SdkPool.LenderPositionsAmountsForPool | sdk/src/pool.ts:686-723 | the loop over the positions returns exactly the tables `LenderTables` defines |
| SdkPool.CollectStep | sdk/src/pool.ts:692-709 | each step records the position's amounts under its id, or stops with its error |
| SdkPool.CollectErrorSticks | sdk/src/pool.ts:692-709 | once a position throws, the whole reduce throws that error |
| SdkPool.CollectKeys | sdk/src/pool.ts:692-709 | the tables are keyed by exactly the ids collected |
| SdkPool.CollectSameKeys | sdk/src/pool.ts:692-709 | the nine tables always have the same keys |
| SdkPool.CollectPerId | sdk/src/pool.ts:692-709 | with distinct ids, each id's entries are the amounts of its own position |
| SdkPool.CollectOkIff | sdk/src/pool.ts:692-709 | the reduce succeeds iff every position's amounts succeed |
| SdkPool.RecordSameKeys | sdk/src/pool.ts:696-707 | one write keeps the nine tables keyed alike |
| SdkPool.RecordEntry | sdk/src/pool.ts:696-707 | reading back after a write gives the written amounts under the written id and the old ones elsewhere |
| SdkPool.LenderTablesOkIff | sdk/src/pool.ts:686-723 | a lender's tables are an error iff one of the lender's positions throws |
| SdkPool.LenderTablesPerPosition | sdk/src/pool.ts:686-723 | with distinct position ids, the tables hold an entry for each position and nothing else, and each entry is that position's amounts |
| SdkPool.LenderTables | sdk/src/pool.ts:686-723 | the reduce of `_lenderPositionsAmountsForPool` over the lender's positions, as a definition; its meaning is stated by `LenderTablesOkIff` and `LenderTablesPerPosition` |
| SdkHelpers.IsAddress | sdk/src/helpers.ts:14-18 | the check throws `invalid-address` iff its argument is not a string |
| SdkHelpers.IsBigNumber | sdk/src/helpers.ts:20-24 | the check throws `invalid-bignumber` iff its argument is not a number, a string or a BigNumber |
| SdkHelpers.IsBoolean | sdk/src/helpers.ts:26-30 | the check throws `invalid-boolean` iff its argument is not a boolean |
| SdkHelpers.EthAddressLowerCase | sdk/src/helpers.ts:32-34 | the result has the same length and no upper-case letter, and agrees with the input up to case |
| SdkHelpers.EthAddressLowerCaseIdempotent | sdk/src/helpers.ts:32-34 | lower-casing twice equals lower-casing once |
| SdkHelpers.AddressBodies | sdk/src/helpers.ts:57 | each address contributes its characters 2 to 42, in order |
| SdkHelpers.EncodeEmpty | sdk/src/helpers.ts:55-59 | an empty list encodes as `0x` |
| SdkHelpers.EncodeAddressArray | sdk/src/helpers.ts:55-59 | a successful encoding starts with `0x`, and a failure is the `hexlify` error; `EncodeWellFormed` gives the full layout |
| SdkHelpers.EncodeWellFormed | sdk/src/helpers.ts:55-59 | well-formed addresses encode as `0x` followed by each address's 40 hex digits, lower-cased, in order |
| SdkHelpers.BodiesHexDigit | sdk/src/helpers.ts:57 | the joined bodies of well-formed addresses are 40 hex digits per address |
| SdkHelpers.ConcatBodies | sdk/src/helpers.ts:57 | the k-th 40 characters of the joined bodies are the k-th address's body |
| SdkHelpers.ToWei | sdk/src/helpers.ts:118-120 | `toWei(a, d)` is `a * 10^(18-d)`, and it throws (negative exponent) exactly when `d > 18` |
| SdkHelpers.ToWeiExamples | sdk/src/helpers.ts:118-120 | 18 decimals are kept as they are, and 6 decimals are scaled by 10^12 |
| SdkHelpers.JsArray.constructor | sdk/src/helpers.ts:45 | a new array holds the given items |
| SdkHelpers.Splice | sdk/src/helpers.ts:50 | `splice` removes and returns at most `deleteCount` items; within bounds it returns exactly that slice and leaves the rest |
| SdkHelpers.SpliceKeeps | sdk/src/helpers.ts:50 | a splice loses no element: removed and remaining items together are the original multiset |
| SdkHelpers.BatchCount | sdk/src/helpers.ts:46 | a non-positive limit gives no batches |
| SdkHelpers.BatchCountBounds | sdk/src/helpers.ts:46 | the batch count is `floor(n / limit)` |
| SdkHelpers.BatchedAsWritten | sdk/src/helpers.ts:49-51 | the loop as written produces one batch per iteration, each at most `limit` long |
| SdkHelpers.BatchArray | sdk/src/helpers.ts:45-53 | the in-place loop returns the batches and leaves in the array exactly what `BatchedAsWritten` defines |
| SdkHelpers.BatchedKeepsElements | sdk/src/helpers.ts:49-51 | batches plus what is left in the array are a permutation of the input |
| SdkHelpers.FirstBatch | sdk/src/helpers.ts:49-51 | the first batch is the original first `limit` elements |
| SdkHelpers.BatchedAsWrittenSkips | sdk/src/helpers.ts:49-51 | six elements in batches of two give `[0,1]`, `[4,5]` and `[]`, leaving `2, 3` behind |
| SdkHelpers.Chunks | sdk/src/helpers.ts:45-53 | the intended batching has `floor(n / limit)` batches of exactly `limit` elements |
| SdkHelpers.BatchArrayCorrected | sdk/src/helpers.ts:45-53 | splicing at index 0 each time returns consecutive chunks and leaves the remainder in the array |
| SdkHelpers.ChunksCover | sdk/src/helpers.ts:45-53 | the chunks concatenate to the input's prefix of `limit * count` elements |
| SdkHelpers.ScaledIsProduct | sdk/src/helpers.ts:50 | the splice offset computed by repeated addition is `batchLimit * i` |
| SdkHelpers.ScaledMonotone | sdk/src/helpers.ts:50 | later iterations splice at larger offsets |
| EthersUtils.Hexlify | sdk/src/helpers.ts:58 | hexlify succeeds iff its input is hex of even length, and then lower-cases it |
| EthersUtils.HexlifyLowerCase | sdk/src/helpers.ts:58 | well-formed lower-case hex is returned unchanged |
| SdkConstants.Get | sdk/src/constants.ts:130 | a record lookup finds an entry with that key, or there is none |
| SdkConstants.Put | sdk/src/constants.ts:157-162 | `Object.assign` adds nothing but the given entry |
| SdkConstants.PutGet | sdk/src/constants.ts:157-162 | after assigning a key, it reads back the new value and every other key reads as before |
| SdkConstants.PutDistinct | sdk/src/constants.ts:157-162 | assigning keeps the record's keys distinct |
| SdkConstants.CoinsList | sdk/src/constants.ts:151-166 | `coinsList(network)` is the fold over the configured stablecoins with the network's address book |
| SdkConstants.AssignCoins | sdk/src/constants.ts:155-164 | the `forEach` loop builds exactly the fold `CoinsFold` |
| SdkConstants.UnconfiguredEmpty | sdk/src/constants.ts:154-156 | without an address book the record is empty |
| SdkConstants.FoldEntries | sdk/src/constants.ts:155-164 | the record holds each address once, and every entry is a configured coin's entry keyed by its lower-cased address with the coin's data and address |
| SdkConstants.FoldKeys | sdk/src/constants.ts:155-164 | a key is present iff some configured coin's lower-cased address is that key |
| SdkConstants.FoldValue | sdk/src/constants.ts:155-164 | with distinct addresses each configured coin is found under its address |
| SdkConstants.BaseHasNoUsdt | sdk/src/constants.ts:54-64 | Base (8453) offers no USDT, since its address there is empty |
| SdkConstants.UnsupportedNetworkEmpty | sdk/src/constants.ts:151-166 | a network outside the address book has no coins |
| SdkConstants.Coins | sdk/src/constants.ts:127-131 | `coins` returns null exactly when the asset or the network is falsy |
| SdkConstants.CoinsCaseInsensitive | sdk/src/constants.ts:127-131 | two spellings of an address that lower-case alike find the same coin |
| SdkConstants.CoinsFindsConfigured | sdk/src/constants.ts:127-131 | a coin is found iff a configured coin of the network has that address, up to case |
| SdkConstants.FilterBySymbol | sdk/src/constants.ts:173 | the filter keeps exactly the entries whose symbol is allowed |
| SdkConstants.AsWrittenIsNotARecord | sdk/src/constants.ts:168-175 | as written, a record comes back only when no coin is allowed, and it is then empty |
| SdkConstants.FoldNonEmpty | sdk/src/constants.ts:155-164 | a configured coin makes the record non-empty |
| SdkConstants.AllowedConfiguredIsOneCoin | sdk/src/constants.ts:168-175 | as written, when every coin is allowed and one is configured, the result is a single coin object |
| SdkConstants.MainnetAsWrittenIsOneCoin | sdk/src/constants.ts:168-175 | as written, mainnet with all tokens allowed returns one coin object, not a record |
| SdkConstants.ReduceDistinct | sdk/src/constants.ts:174 | the intended reduce of entries with distinct keys keeps them all, in order |
| SdkConstants.PutAppends | sdk/src/constants.ts:157-162 | assigning a new key appends its entry |
| SdkConstants.FilterDistinct | sdk/src/constants.ts:173 | filtering keeps keys distinct |
| SdkConstants.CoinsForBalanceFilters | sdk/src/constants.ts:168-175 | the intended `coinsForBalance` is the record of exactly the network's coins with an allowed symbol |
| ProtocolUtils.ConstantsAgree | protocol/utils/index.ts:93-97 | `day` = 86400, `year` = 31104000 and `one` = 10^18, the same as the SDK's `YEAR` and `One` |
| ProtocolUtils.Bodies | protocol/utils/index.ts:88 | the joined bodies are at most 40 characters per address |
| ProtocolUtils.BodiesAreConcat | protocol/utils/index.ts:88 | the bodies are those of the SDK's encoder |
| ProtocolUtils.SameAsSdk | protocol/utils/index.ts:86-91 | the protocol's `encodeAddressArray` succeeds, fails and encodes exactly as the SDK's does |
| ProtocolUtils.EncodeAddressArray | protocol/utils/index.ts:86-91 | a successful encoding starts with `0x`; `SameAsSdk` ties it to the SDK's encoder |
| ProtocolUtils.AllowUndefinedArgs | protocol/utils/index.ts:68-77 | an array passes with its options; a non-array with undefined options becomes `[[], args]`; a non-array with defined options throws |
| ProtocolUtils.DefaultedOptions | protocol/utils/index.ts:17 | a defaulted options parameter is never undefined |
| ProtocolUtils.DefaultedArgs | protocol/utils/index.ts:16 | the default `args = []` turns an omitted argument list into an empty array and keeps any other |
| ProtocolUtils.CallNormalises | protocol/utils/index.ts:13-39 | through `call` and `send`, with both defaults applied: an omitted argument list passes as `[]`, an array passes unchanged, and any other argument list throws |
| ProtocolUtils.ErrorNamesArgs | protocol/utils/index.ts:71 | the error message is `Args expected to be an array, got ` followed by `String(args)` |
| ScriptConfig.CheckIff | protocol/scripts/helpers/config.ts:46-48 | the check holds iff no value renders as the empty string |
| ScriptConfig.CheckForEmptyObjectValues | protocol/scripts/helpers/config.ts:46-48 | the empty object passes and any empty-string value fails; `CheckIff` gives the exact condition |
| ScriptConfig.NonEmptyStringsPass | protocol/scripts/helpers/config.ts:46-48 | an object of non-empty strings passes |
| ScriptConfig.GetFilteredValuesFromObject | protocol/scripts/helpers/config.ts:50-58 | the result's keys are a subset of the input's, with the values unchanged |
| ScriptConfig.FilterKeeps | protocol/scripts/helpers/config.ts:50-58 | a key is kept iff it is in the input and its entry satisfies the filter |
| ScriptConfig.FilterAll | protocol/scripts/helpers/config.ts:50-58 | an always-true filter returns the input |
| ScriptConfig.FilterNone | protocol/scripts/helpers/config.ts:50-58 | an always-false filter returns `{}` |
| ScriptConfig.FilterIdempotent | protocol/scripts/helpers/config.ts:50-58 | filtering twice with one filter equals filtering once |
| ScriptConfig.FilterCompose | protocol/scripts/helpers/config.ts:50-58 | filtering by `f` then `g` equals filtering by both |
| JsValues.EmptyRendering | protocol/scripts/helpers/config.ts:47 | `String(v)` is empty exactly for `''` and for arrays that are empty or hold one empty-rendering or nullish element |
| JsValues.JoinEmptyIff | protocol/scripts/helpers/config.ts:47 | a join is empty iff there are no parts or a single empty one |
| EnvFile.Lookup | protocol/scripts/helpers/updateEnvFile.ts:32-34 | a key found in `values` comes with its value; otherwise no entry has that key |
| EnvFile.LookupDistinct | protocol/scripts/helpers/updateEnvFile.ts:32-34 | with distinct keys, each entry is found under its key |
| EnvFile.Without | protocol/scripts/helpers/updateEnvFile.ts:15-33 | deleting keys never lengthens `valuesToAdd` |
| EnvFile.WithoutMembers | protocol/scripts/helpers/updateEnvFile.ts:15-33 | `valuesToAdd` holds exactly the entries of `values` whose key was not deleted |
| EnvFile.WithoutNothing | protocol/scripts/helpers/updateEnvFile.ts:15 | before any line is read, `valuesToAdd` is a copy of `values` |
| EnvFile.WithoutAll | protocol/scripts/helpers/updateEnvFile.ts:33 | deleting every key leaves nothing to append |
| EnvFile.WithoutTwice | protocol/scripts/helpers/updateEnvFile.ts:33 | deleting one more key equals deleting the larger set |
| EnvFile.WithoutConcat | protocol/scripts/helpers/updateEnvFile.ts:33 | deletion works entry by entry |
| EnvFile.WithoutDistinct | protocol/scripts/helpers/updateEnvFile.ts:33 | deletion keeps keys distinct |
| EnvFile.MatchedStep | protocol/scripts/helpers/updateEnvFile.ts:24-39 | one more line adds its key to the matched keys iff it matches |
| EnvFile.MapLine | protocol/scripts/helpers/updateEnvFile.ts:24-39 | one line is rewritten as `RewriteLine` defines, and its key is deleted from `valuesToAdd` iff it matches |
| EnvFile.AppendRemaining | protocol/scripts/helpers/updateEnvFile.ts:41-45 | every remaining entry is appended as `${prefix}${key}=${value}`, in order |
| EnvFile.MapLines | protocol/scripts/helpers/updateEnvFile.ts:21-39 | the map rewrites every line and leaves in `valuesToAdd` exactly the unmatched entries |
| EnvFile.UpdateEnv | protocol/scripts/helpers/updateEnvFile.ts:21-47 | the text written is exactly `UpdateEnvText` of the text read |
| EnvFile.UpdateEnvText | protocol/scripts/helpers/updateEnvFile.ts:21-47 | the rewritten lines joined with line breaks, as a definition; its meaning is stated by `UpdatedLinesShape`, `LineCount`, `AppendedOnce` and `Idempotent` |
| EnvFile.UpdatedLinesShape | protocol/scripts/helpers/updateEnvFile.ts:21-45 | there is one output line per input line plus one per unmatched key; a matching line becomes `${prefix}${key}=${values[key]}`, any other line (empty ones included) stays verbatim and in place, and the unmatched keys follow in order |
| EnvFile.AppendedOnce | protocol/scripts/helpers/updateEnvFile.ts:32-45 | each key of `values` not found in any line is appended once; keys found in the file are never appended |
| EnvFile.RemoveKeepsOut | protocol/scripts/helpers/updateEnvFile.ts:29 | removing the prefix adds no character |
| EnvFile.NoBreakInKey | protocol/scripts/helpers/updateEnvFile.ts:26-30 | a key taken from one line holds no line break |
| EnvFile.SingleLines | protocol/scripts/helpers/updateEnvFile.ts:21-45 | with single-line values, no output line holds a line break |
| EnvFile.LineCount | protocol/scripts/helpers/updateEnvFile.ts:21-47 | the output's line count is the input's plus the number of unmatched keys |
| EnvFile.AssignmentKey | protocol/scripts/helpers/updateEnvFile.ts:26-34 | a written assignment's key reads back as the key written |
| EnvFile.RewriteStable | protocol/scripts/helpers/updateEnvFile.ts:24-39 | rewriting a line twice equals rewriting it once, and a rewritten line still matches its key |
| EnvFile.AppendedStable | protocol/scripts/helpers/updateEnvFile.ts:41-45 | an appended line matches its key and is left as it is by a second run |
| EnvFile.FirstRunStable | protocol/scripts/helpers/updateEnvFile.ts:21-45 | a second run rewrites no line of the first run's output |
| EnvFile.StableAt | protocol/scripts/helpers/updateEnvFile.ts:24-39 | each line of the first run's output is rewritten to itself |
| EnvFile.FirstRunMatchesAll | protocol/scripts/helpers/updateEnvFile.ts:21-45 | after one run every key of `values` is found in the file |
| EnvFile.Idempotent | protocol/scripts/helpers/updateEnvFile.ts:21-47 | with keys without `=` and values without line breaks, rerunning with the same values leaves the text unchanged |
| Text.Lower | sdk/src/helpers.ts:33 | `toLowerCase` keeps the length and maps each ASCII capital to its lower-case letter, leaving every other character |
| Text.SplitPieces | protocol/scripts/helpers/updateEnvFile.ts:22 | no piece of a split holds the separator |
| Text.BeforeFirst | protocol/scripts/helpers/updateEnvFile.ts:25 | the key before the first `=` holds no `=`, and is the whole line when there is none |
| Text.ReplaceLeadingPattern | protocol/scripts/helpers/updateEnvFile.ts:27-29 | replacing the prefix of a line that starts with it leaves the rest of the line |
| Text.SplitJoin | protocol/scripts/helpers/updateEnvFile.ts:21-23 | splitting a join of pieces without the separator gives the pieces back |
| Text.JoinSplit | protocol/scripts/helpers/updateEnvFile.ts:47 | joining the pieces of a split gives the text back |
| SubgraphMath.ConvertToBN | subgraph/mapping/pool.ts:948-951 | scaling by a power of ten never lowers a non-negative amount and keeps it at base 0 |
| SubgraphMath.ConstantsAgree | subgraph/mapping/pool.ts:35-36 | `YEAR_SECONDS` and `MULTIPLIER` equal the SDK's `YEAR` and `One` |
| SubgraphMath.CalcInterest | subgraph/mapping/pool.ts:939-942 | an empty period, a zero amount or a zero rate earns nothing |
| SubgraphMath.SameAsSdk | subgraph/mapping/pool.ts:939-942 | the subgraph's interest over `[s, e]` is the SDK's interest over `e - s` |
| SubgraphMath.CalcInterestMonotone | subgraph/mapping/pool.ts:939-942 | for non-negative amount and rate, interest is non-negative and grows with the end date |
| SubgraphMath.FeeIsSdkSpread | subgraph/mapping/pool.ts:944-946 | the fee is the SDK's spread, and at most the interest for a fee rate of at most 100% |
| SubgraphMath.CalcFeeFromInterest | subgraph/mapping/pool.ts:944-946 | a zero interest or a zero fee rate gives no fee, and a 100% fee rate takes the whole interest |
| SubgraphIds.MemberIdParts | subgraph/mapping/pool.ts:953-955 | a member id is the pool id followed by the member address |
| SubgraphIds.CreateMemberId | subgraph/mapping/pool.ts:953-955 | the pool address followed by the member address, as a definition; `MemberIdParts`, `MemberIdInjective` and `ParseMemberIdRoundTrip` state its meaning |
| SubgraphIds.CreateRepaymentPaymentId | subgraph/mapping/pool.ts:957-959 | the repayment id followed by the member, as a definition; `RepaymentPaymentIdInjective` states its meaning |
| SubgraphIds.CreateRepaymentId | subgraph/mapping/pool.ts:967-969 | the pool, `-` and the decimal index, as a definition; `RepaymentIdPrefix` and `RepaymentIdInjective` state its meaning |
| SubgraphIds.CreateTxId | subgraph/mapping/pool.ts:971-973 | the hash, `@` and the index, as a definition; `TxIdParts` states its meaning |
| SubgraphIds.CreatePositionId | subgraph/mapping/pool.ts:975-981 | the pool, `-`, the lender, `-` and the `f64` rendering of the index, as a definition; `PositionIdInjective` and `FirstPositionId` state its meaning |
| SubgraphIds.MemberIdInjective | subgraph/mapping/pool.ts:953-955 | for pool ids of one length, member ids are equal iff pool and member are |
| SubgraphIds.ParseMemberId | subgraph/mapping/pool.ts:961-965 | parsing gives two parts that concatenate to the id |
| SubgraphIds.ParseMemberIdRoundTrip | subgraph/mapping/pool.ts:953-965 | parsing a member id built from a 42-character pool id gives `[pool, member]` back |
| SubgraphIds.RepaymentIdPrefix | subgraph/mapping/pool.ts:967-969 | a repayment id starts with the pool id and `-` |
| SubgraphIds.RepaymentIdInjective | subgraph/mapping/pool.ts:967-969 | one pool's repayment ids are equal iff their indices are |
| SubgraphIds.TxIdParts | subgraph/mapping/pool.ts:971-973 | a transaction id is the hash, `@`, and the index |
| SubgraphIds.PositionIdInjective | subgraph/mapping/pool.ts:975-981 | one lender's position ids in a pool are equal iff their indices are |
| SubgraphIds.FirstPositionId | subgraph/mapping/pool.ts:975-981 | the `f64` index renders with `.0`, so a lender's first position is `<pool>-<lender>-0.0` |
| SubgraphIds.RepaymentPaymentIdInjective | subgraph/mapping/pool.ts:957-959 | payment ids are equal iff their repayments and members are, for repayment ids of one length |
| Text.DecimalRoundTrip | subgraph/mapping/pool.ts:968 | the decimal rendering of an index reads back as that index |
| Text.IntToDecimalInjective | subgraph/mapping/pool.ts:968 | distinct indices render differently |
| MappingUtil.GetOrCreatePrimeEntity | subgraph/mapping/util.ts:4-19 | the stored `clearpool` singleton is returned unchanged; otherwise a fresh one with no pools or members, index 0 and minimums 3600, 65 days and 49 hours, without writing the store |
| RepaymentSchedule.Periods | subgraph/mapping/pool.ts:130-139 | there are no periods exactly when the start is after the end |
| RepaymentSchedule.PeriodsCount | subgraph/mapping/pool.ts:130-139 | the loop emits `floor((end - start) / round) + 1` periods |
| RepaymentSchedule.PeriodsChain | subgraph/mapping/pool.ts:130-139 | the first period starts at the start, the last ends at the end, and each starts where the previous one ended |
| RepaymentSchedule.PeriodsLengths | subgraph/mapping/pool.ts:130-139 | every period but the last is `round` long, and all lie within `[start, end]` |
| RepaymentSchedule.PeriodsTrailing | subgraph/mapping/pool.ts:130-139 | the last period is the empty `[end, end]` iff `end - start` is a multiple of `round` |
| RepaymentSchedule.RepaymentIds | subgraph/mapping/pool.ts:133-137 | there is one id per period |
| RepaymentSchedule.RepaymentIdsAt | subgraph/mapping/pool.ts:133-137 | the k-th period's id carries index `index + k` |
| RepaymentSchedule.RepaymentIdsDistinct | subgraph/mapping/pool.ts:133-137 | the periods' ids are distinct |
| RepaymentSchedule.NewRepayments | subgraph/mapping/pool.ts:924-937 | there is one repayment per period |
| RepaymentSchedule.NewRepaymentsAt | subgraph/mapping/pool.ts:924-937 | the k-th repayment has index `index + k` and the k-th period's dates |
| RepaymentSchedule.ScheduleFromStep | subgraph/mapping/pool.ts:130-139 | one loop turn stores the current period and continues one round later with the next index |
| RepaymentSchedule.PeriodsStep | subgraph/mapping/pool.ts:130-139 | one loop turn emits exactly one period |
| RepaymentSchedule.ScheduleFromIsScheduled | subgraph/mapping/pool.ts:130-139 | the loop stores exactly the repayments of `Periods`, at consecutive indices |
| RepaymentSchedule.ScheduledAt | subgraph/mapping/pool.ts:130-139 | every period is stored under its id with its dates and the pool's size |
| RepaymentSchedule.ScheduledOther | subgraph/mapping/pool.ts:130-139 | repayments under other ids are left as they were |
| RepaymentSchedule.CreateRepayment | subgraph/mapping/pool.ts:924-937 | stores a repayment with the given index, dates and size and nothing paid |
| RepaymentSchedule.PeriodsLength | subgraph/mapping/pool.ts:130-139 | the period count of the loop equals the number of periods |
| RepaymentSchedule.CreateNextRepayment | subgraph/mapping/pool.ts:131-138 | one loop turn leaves exactly the schedule of the remaining range |
| RepaymentSchedule.CreateRepayments | subgraph/mapping/pool.ts:126-141 | the loop stores the schedule of `[start, end]` and returns the next free index |
| PrimeRegistry.WithStatusEffect | subgraph/mapping/pool.ts:858-883 | an existing membership only changes status; a new one belongs to the pool named by the id and starts empty |
| PrimeRegistry.CreatePoolMember | subgraph/mapping/pool.ts:858-883 | saves the membership with the given status, creating it when absent |
| PrimeRegistry.WithPublicPoolEffect | subgraph/mapping/pool.ts:740-749 | the pool is appended to the stored singleton's public pools, and nothing else changes |
| PrimeRegistry.AddToPublicPool | subgraph/mapping/pool.ts:740-749 | appends the pool to the public pools of a stored singleton, and changes nothing without one |
| PrimeRegistry.FirstIncluding | subgraph/mapping/pool.ts:757-762 | the search stops within the list |
| PrimeRegistry.FirstIncludingSpec | subgraph/mapping/pool.ts:757-762 | the search finds the first entry containing the id |
| PrimeRegistry.FindIncluding | subgraph/mapping/pool.ts:756-762 | the search loop leaves the first matching index, or 0 when nothing matches |
| PrimeRegistry.RemoveIncludingSpec | subgraph/mapping/pool.ts:751-767 | the intended removal drops exactly the first entry containing the pool and keeps the list when none does |
| PrimeRegistry.RemoveUnlistedAsWritten | subgraph/mapping/pool.ts:756-763 | as written, removing `0xc` from `[0xa, 0xb]` drops `0xa`; as intended it keeps both |
| PrimeRegistry.RemoveFromPublicPoolAsWritten | subgraph/mapping/pool.ts:751-767 | as written, the entry at the loop's index is spliced out, and it is the first one when the pool is not listed |
| PrimeRegistry.RemoveFromPublicPool | subgraph/mapping/pool.ts:751-767 | the corrected removal, used by no handler: only an entry containing the pool is removed |
| PrimeRegistry.RemoveIncludingAsWritten | subgraph/mapping/pool.ts:756-763 | as written, a non-empty list always loses exactly one entry, whether or not an entry contains the id |
| PrimeRegistry.RemoveIncluding | subgraph/mapping/pool.ts:756-763 | as intended, a list loses one entry iff some entry contains the id, and is kept otherwise |
| PrimeRegistry.RemoveIncludingAsWrittenListed | subgraph/mapping/pool.ts:756-763 | the as-written and intended removals agree whenever the id is listed; otherwise the as-written one drops the first entry |
| PrimeRegistry.PopulatedMembers | subgraph/mapping/pool.ts:905-922 | a new pool lists exactly the Prime members other than its creator |
| PrimeRegistry.WhitelistAllRecords | subgraph/mapping/pool.ts:905-922 | every membership is kept, and every listed member gets a whitelisted membership |
| PrimeRegistry.PopulatePoolWithMembers | subgraph/mapping/pool.ts:905-922 | whitelists every Prime member but the creator and returns their ids; without a singleton nothing happens |
| PrimeRegistry.JoiningCovers | subgraph/mapping/pool.ts:801-811 | after the inner loop the pool lists every Prime member but its borrower |
| PrimeRegistry.WhitelistJoiningRecords | subgraph/mapping/pool.ts:801-811 | the inner loop keeps every membership and whitelists each id it appends |
| PrimeRegistry.JoinPoolsKeys | subgraph/mapping/pool.ts:795-815 | the pools keep their keys and no membership is lost |
| PrimeRegistry.JoinPoolsKeeps | subgraph/mapping/pool.ts:795-815 | a pool only gains members, and its other fields are kept |
| PrimeRegistry.JoinPoolsCovers | subgraph/mapping/pool.ts:795-815 | every public pool lists every Prime member but its borrower |
| PrimeRegistry.JoinPoolsRecorded | subgraph/mapping/pool.ts:795-815 | every id a pool lists keeps a membership entity |
| PrimeRegistry.JoinPublicPool | subgraph/mapping/pool.ts:796-814 | one turn of the outer loop for one public pool |
| PrimeRegistry.JoinPools | subgraph/mapping/pool.ts:795-815 | the outer loop of `handleAddPrimeMember`, as a definition; `JoinPoolsKeys`, `JoinPoolsKeeps`, `JoinPoolsCovers` and `JoinPoolsRecorded` state its meaning |
| PrimeRegistry.AddPrimeMember | subgraph/mapping/pool.ts:787-818 | the member is appended to the Prime members and joins every public pool |
| PrimeRegistry.ArrayIndexOf | subgraph/mapping/pool.ts:842 | `indexOf` gives the position of the first occurrence, or -1 iff there is none |
| PrimeRegistry.LeavePublicPoolAsWritten | subgraph/mapping/pool.ts:834-850 | one turn of the outer loop as written: for every Prime member the pool lists, it splices at the index in the unspliced list and deletes the membership |
| PrimeRegistry.RemovePrimeMemberAsWritten | subgraph/mapping/pool.ts:820-856 | as written, every Prime member leaves every public pool, and the first Prime member is dropped when the id is unknown |
| PrimeRegistry.LeavingIds | subgraph/mapping/pool.ts:840 | there is one leaving membership id per public pool |
| PrimeRegistry.LeavePools | subgraph/mapping/pool.ts:833-851 | the intended outer loop of `handleRemovePrimeMember`, as a definition; `LeavePoolsKeepsOthers` states its meaning |
| PrimeRegistry.LeavePoolsKeepsOthers | subgraph/mapping/pool.ts:820-856 | as intended, every other membership and every other listed id stays |
| PrimeRegistry.RemovePrimeMember | subgraph/mapping/pool.ts:820-856 | the corrected removal, used by no handler: only the member leaves the Prime members and the public pools |
| PrimeRegistry.RemovePrimeMemberAsWrittenDropsOthers | subgraph/mapping/pool.ts:833-851 | as written, removing `a` from a pool listing `a` and `b` deletes `b`'s membership while the pool still lists it; as intended `b` keeps it |
| PrimeRegistry.LeavePoolsAsWrittenExample | subgraph/mapping/pool.ts:833-851 | as written, a pool listing `pa` and `pb` keeps listing `pb` after removing `a`, while `pb`'s membership is deleted |
| PrimeRegistry.LeavePoolsExample | subgraph/mapping/pool.ts:833-851 | as intended, removing `a` from that pool leaves `pb` listed with its membership unchanged |
| MemberAccounting.HandleTx | subgraph/mapping/pool.ts:704-726 | stores the transaction under `hash@index` |
| MemberAccounting.GetMemberPrincipal | subgraph/mapping/pool.ts:728-738 | the member's principal, or 0 without a membership |
| MemberAccounting.CreateOrUpdateRepaymentPayment | subgraph/mapping/pool.ts:885-903 | creates the lender's payment for the repayment, or adds to it |
| MemberAccounting.PaymentsAccumulate | subgraph/mapping/pool.ts:885-903 | two payments add their amounts, penalties and spreads and change nothing else |
| MemberAccounting.LentMemberEffect | subgraph/mapping/pool.ts:501-548 | a loan adds exactly the amount to principal and position amount, numbers the new position after the existing ones, and changes nothing else |
| MemberAccounting.NewPositionInterest | subgraph/mapping/pool.ts:514-536 | a new position is unpaid, ends at the pool's maturity, and earns non-negative interest that is zero when lent at maturity |
| MemberAccounting.NewPosition | subgraph/mapping/pool.ts:509-536 | a new position is unpaid, opened at the event time for the lent amount, under the id numbered by the member's position count |
| MemberAccounting.MemberLend | subgraph/mapping/pool.ts:501-548 | a member's loan updates the membership and stores the new position; without a membership nothing changes |
| MemberAccounting.RepaidMemberEffect | subgraph/mapping/pool.ts:554-565 | repaying zeroes the principal, adds the repayment to the total due, and splits it into principal, interest and penalty |
| MemberAccounting.PaidCallback | subgraph/mapping/pool.ts:579-588 | the last callback is marked paid iff it exists and was unpaid; otherwise the callbacks are kept |
| MemberAccounting.RepaidPositionEffect | subgraph/mapping/pool.ts:594-645 | a repaid position is paid at the event time with amount and end kept, and its spread is at most its repaid interest |
| MemberAccounting.RepaidPosition | subgraph/mapping/pool.ts:594-645 | one turn of the repay loop on a position, as a definition; `RepaidPositionEffect` states its meaning |
| MemberAccounting.RepayPositionsEffect | subgraph/mapping/pool.ts:590-647 | the loop marks every listed unpaid position paid and leaves all others as they were |
| MemberAccounting.RepayMemberPositions | subgraph/mapping/pool.ts:590-647 | the loop stores exactly `RepayPositions` |
| MemberAccounting.ChargeLastRepayment | subgraph/mapping/pool.ts:567-577 | a monthly pool's last repayment and its payment are charged with the repayment |
| MemberAccounting.MarkCallbackPaid | subgraph/mapping/pool.ts:579-588 | marks the last unpaid callback paid and reports whether it did |
| MemberAccounting.MemberRepay | subgraph/mapping/pool.ts:550-656 | the membership, last repayment, payment, callback and positions are all updated; without a membership nothing changes |
| MemberAccounting.InterestPaidMemberEffect | subgraph/mapping/pool.ts:662-675 | paying interest keeps the principal and positions, moves `lastPaidAt`, and splits the repayment into interest and penalty |
| MemberAccounting.InterestPaidPositionOnTime | subgraph/mapping/pool.ts:681-697 | paying by `lastPaidAt` adds no penalty and keeps the position unpaid with its amount and end |
| MemberAccounting.InterestPaidPosition | subgraph/mapping/pool.ts:681-697 | one turn of the interest loop on a position, as a definition; `InterestPaidPositionOnTime` states its meaning |
| MemberAccounting.PayInterestPositionsOnTime | subgraph/mapping/pool.ts:677-698 | an on-time interest payment penalises no position |
| MemberAccounting.PayInterestMemberPositions | subgraph/mapping/pool.ts:677-698 | the loop stores exactly `PayInterestPositions` |
| MemberAccounting.MemberRepayInterest | subgraph/mapping/pool.ts:658-702 | the membership and its positions are updated with the new `lastPaidAt`; without a membership nothing changes |
| MemberAccounting.RolledPositionFixed | subgraph/mapping/pool.ts:774-782 | a position already ending at the new maturity is left as it is |
| MemberAccounting.RollPositionsEnds | subgraph/mapping/pool.ts:769-786 | every listed position of a stored pool now ends at the new maturity; the pools and all other positions are kept |
| MemberAccounting.RollPositionsUnchanged | subgraph/mapping/pool.ts:769-786 | positions already at the new maturity are left as they are |
| MemberAccounting.RollPositionsIdempotent | subgraph/mapping/pool.ts:769-786 | rolling twice to the same maturity equals rolling once |
| MemberAccounting.RollPositions | subgraph/mapping/pool.ts:769-786 | the loop stores exactly `RollPositionsTable`; without a membership nothing changes |
| PoolMapping.CreateNewPool | subgraph/mapping/pool.ts:38-87 | a new pool is stored with its index and the Prime members, listed as public and whitelisted; an existing pool is left alone |
| PoolMapping.CreateNewPoolRecorded | subgraph/mapping/pool.ts:38-87 | a new pool lists exactly the Prime members but its borrower, each with a whitelisted membership |
| PoolMapping.GracePeriodChange | subgraph/mapping/pool.ts:89-96 | only the pool's grace period changes |
| PoolMapping.MonthlyRoundPeriodChange | subgraph/mapping/pool.ts:98-105 | only the pool's monthly round changes |
| PoolMapping.RollRangePeriodChange | subgraph/mapping/pool.ts:107-114 | only the pool's roll ending range changes |
| PoolMapping.Activate | subgraph/mapping/pool.ts:116-148 | the pool becomes active; a monthly pool gets the schedule of `[now, maturity]` at consecutive indices, a bullet pool none |
| PoolMapping.ActivateSchedulesCurrent | subgraph/mapping/pool.ts:124-142 | the current repayment is stored, starts at activation and has the filled size, and the last index's period ends at maturity |
| PoolMapping.MergedSpec | subgraph/mapping/pool.ts:160-167 | the merge keeps the old list as a prefix, holds exactly both lists' ids, and adds no duplicate |
| PoolMapping.MergeMembers | subgraph/mapping/pool.ts:161-166 | the loop returns exactly `Merged` |
| PoolMapping.SwitchVisibilityToPublic | subgraph/mapping/pool.ts:150-174 | the pool becomes public and gains every Prime member but its borrower as a whitelisted member |
| PoolMapping.SwitchVisibilityRecorded | subgraph/mapping/pool.ts:150-174 | the switch keeps the listed members, adds every Prime member but the borrower, and each has a membership |
| PoolMapping.Default | subgraph/mapping/pool.ts:176-186 | the pool is marked defaulted at the event time |
| PoolMapping.Close | subgraph/mapping/pool.ts:188-196 | the pool is marked closed at the event time |
| PoolMapping.RollRequest | subgraph/mapping/pool.ts:198-206 | a roll over `[maturity, maturity + tenor]` is stored and becomes current |
| PoolMapping.RollReject | subgraph/mapping/pool.ts:208-216 | the roll is removed and the pool has no current roll |
| PoolMapping.RollRejectUndoesRequest | subgraph/mapping/pool.ts:198-216 | rejecting a new roll removes exactly what requesting it stored |
| PoolMapping.RollAccepted | subgraph/mapping/pool.ts:488-494 | a stored roll is marked accepted |
| PoolMapping.ScheduleRoll | subgraph/mapping/pool.ts:223-240 | a monthly pool gets the schedule of `[maturity, maturity + tenor]`, and the next free index is returned |
| PoolMapping.RollAccept | subgraph/mapping/pool.ts:218-248 | the roll is accepted, the extension is scheduled, maturity grows by exactly one tenor, and the sender's positions are rolled to it |
| PoolMapping.RollAcceptMatchesRequest | subgraph/mapping/pool.ts:198-248 | the new maturity is the requested roll's end, one tenor later, and the new schedule runs from the roll's start to its end |
| PoolMapping.CallbackCreate | subgraph/mapping/pool.ts:250-280 | stores the callback and its transaction, and pushes the callback onto the membership |
| PoolMapping.CallbackCancel | subgraph/mapping/pool.ts:282-301 | pops the last callback and removes it and its transaction; it aborts iff the membership has no callbacks |
| PoolMapping.CancelUndoesCreate | subgraph/mapping/pool.ts:250-301 | cancelling right after creating restores the callbacks, transactions and membership, leaving earlier callbacks intact |
| PoolMapping.LenderWhitelist | subgraph/mapping/pool.ts:303-322 | a public pool turns private, and the public-pool entry found as written is spliced out (the first one when the pool is not listed); the lender is whitelisted and listed once |
| PoolMapping.WhitelistUnlistedDropsFirst | subgraph/mapping/pool.ts:303-322 | whitelisting a public pool that is no longer listed removes the first public pool: `[0xa, 0xb]` becomes `[0xb]` for pool `0xc` |
| PoolMapping.LenderWhitelistRecorded | subgraph/mapping/pool.ts:303-322 | the pool is private and lists the lender, whitelisted; a formerly public pool lists only the lender |
| PoolMapping.LenderBlacklist | subgraph/mapping/pool.ts:324-332 | an existing membership is blacklisted |
| PoolMapping.Lend | subgraph/mapping/pool.ts:334-362 | the pool's sizes, the current repayment, the transaction, the membership and a new position are updated |
| PoolMapping.LendEffect | subgraph/mapping/pool.ts:338-340 | a loan adds exactly the amount to current size, filled size, total borrowed and the member's principal, and nothing else to the pool |
| PoolMapping.SettlePool | subgraph/mapping/pool.ts:368-393 | settles the pool's sizes, paid total and current roll |
| PoolMapping.Repay | subgraph/mapping/pool.ts:364-408 | the pool is settled, the current roll paid, the member repaid and the transaction stored |
| PoolMapping.RepayEffect | subgraph/mapping/pool.ts:368-393 | repaying lowers current size by the member's principal, and filled size only before deposit maturity, and clears the current roll; lending then repaying restores the current size |
| PoolMapping.NextLastPaidAtBounds | subgraph/mapping/pool.ts:447-451 | the new `lastPaidAt` is one round later, clipped to maturity |
| PoolMapping.BookInterest | subgraph/mapping/pool.ts:425-466 | books the interest payment on the current repayment (first payment of a block) or on the previous one |
| PoolMapping.RepayInterest | subgraph/mapping/pool.ts:410-472 | the transaction, schedule, `lastPaidAt`, membership, positions and paid total are all updated |
| PoolMapping.InterestPaidPoolOncePerBlock | subgraph/mapping/pool.ts:425-451 | a second payment in the same block does not advance the pool again |
| PoolMapping.InterestPaidAdvances | subgraph/mapping/pool.ts:425-451 | the first payment of a block marks the current repayment paid, moves to the next, and carries the size over; `lastPaidAt` stays within maturity |
| FactoryMapping.HandleCreatePool | subgraph/mapping/factory.ts:8-22 | `poolIndex` grows by exactly 1 and the new value is the created pool's index |
| FactoryMapping.CreatePoolCounts | subgraph/mapping/factory.ts:12-21 | the singleton's index grows by one and the pool is appended to the public pools; on a fresh singleton the index is 1 |
| FactoryMapping.MinDepositChange | subgraph/mapping/factory.ts:25-30 | only `minDepositWindow` changes |
| FactoryMapping.MinMonthlyMaturityChange | subgraph/mapping/factory.ts:32-37 | only `minMonthlyMaturity` changes |
| FactoryMapping.LiquidityMinRangeChange | subgraph/mapping/factory.ts:39-44 | only `liquidityMinRange` changes |
| FactoryMapping.MinimumOnFreshPrime | subgraph/mapping/factory.ts:25-30 | on a fresh singleton the other fields keep their defaults |
| PrimeMapping.MemberCreate | subgraph/mapping/prime.ts:12-22 | the member table becomes `CreatedMembers` |
| PrimeMapping.CreatedMembersEffect | subgraph/mapping/prime.ts:12-22 | an absent member is created pending with risk score 0, an existing one is unchanged, and creating twice equals creating once |
| PrimeMapping.MemberWhitelist | subgraph/mapping/prime.ts:24-32 | an existing member is whitelisted and joins the registry; an unknown one changes nothing |
| PrimeMapping.MemberBlacklist | subgraph/mapping/prime.ts:34-42 | an existing member is blacklisted, and `handleRemovePrimeMember` runs as written: every Prime member's membership leaves every public pool, and a non-empty Prime member list loses one entry; an unknown member changes nothing |
| PrimeMapping.MemberRiskScoreChange | subgraph/mapping/prime.ts:44-51 | only an existing member's risk score changes |

## Left out

- Network and RPC calls are not modelled. This covers every SDK wrapper in `sdk/src/pool.ts` (`createPool` through `borrowerTotalDueByPools`), `expectedMultiCall`/`expectedRichMultiCall`, `bindNetId`, `initContract`, `getProviderNetwork`, `loadPrimeCoins`, and the ABI encode/decode helpers.
- `lenderPositionsAmounts` and `lenderPositionsAmountsByPool` are not modelled. They are asynchronous wrappers that await the network binding and apply `_getPositionAmounts` or `_lenderPositionsAmountsForPool` per pool.
- `toBN` is not modelled: it formats with the `bignumber.js` library.
- Text.Lower: maps only the ASCII capitals `A`-`Z`. `toLowerCase` also folds other Unicode letters. The two agree on ASCII text such as hex addresses. On any other input, the source may lower-case letters that the model leaves unchanged.
- EnvFile.Lookup: sees only the object's own keys. `key in values` in JavaScript also finds keys inherited from `Object.prototype` (`constructor`, `toString`, `__proto__` and others). So the source rewrites a `.env` line `constructor=x` with the text of a function, and the model keeps that line.
- SdkConstants.Get: sees only the record's own keys. `coins[asset.toLowerCase()]` also finds inherited `Object.prototype` keys, so an asset named `constructor` returns a function in the source and nothing in the model.
- A Dafny `char` is a Unicode scalar value, and a JavaScript string is a sequence of UTF-16 code units. Lengths and indices differ for characters outside the Basic Multilingual Plane, which the model does not capture.
- JavaScript numbers are unbounded integers in the model. `Number(...)` of a large `BigNumber` loses precision in JavaScript, and the model does not capture that. A missing `paidAt` is modelled as `NaN`, which compares false.
- Event decoding, `DataSourceContext`, `Pool.createWithContext` and the graph node's own store semantics are not modelled. Loads and saves are map operations. `Address.fromString`/`Address.equals` are string comparison of lower-case hex.
- `updateEnvFile`'s file reading and writing, `dotenv.parse` and the `process.env` overwrite are I/O. Only the text transformation is modelled.
- Deployment, upgrade, task and verification scripts and the hardhat, rollup and coverage configuration are not modelled. The chain tests are only used as numeric oracles.
- PoolMapping.Activate: requires a positive `monthlyRound` for a monthly pool. With a zero or negative round the source's schedule loop never ends.
- PoolMapping.RollAccept: requires a positive `monthlyRound` for a monthly pool, for the same reason.
- PoolMapping.ScheduleRoll: requires a positive `monthlyRound` for a monthly pool, for the same reason.
- RepaymentSchedule.CreateRepayments: requires a positive round, for the same reason.
- SdkHelpers.BatchArray: requires a non-zero limit for a non-empty array. With limit 0 the batch count is `Infinity` and the source's loop never ends.
- PoolMapping.CallbackCancel: when a membership has no callbacks, the source reads `callbacks[-1]` and AssemblyScript aborts the handler. The model reports `aborted` and leaves the store unchanged, which is how the graph node discards a failed handler.
- MemberAccounting.NewPosition: a position lent while its pool is not stored keeps the empty pool id, zero interest and a zero end date. The generated entity would leave those fields unset.

## Findings

| source | as written | input that shows it | evidently intended | confidence | as-written member | corrected member |
|---|---|---|---|---|---|---|
| sdk/src/helpers.ts:49-51 | `arr.splice(batchLimit * i, batchLimit)` splices from an array the earlier iterations already shortened | six elements `0..5` with limit 2 give batches `[0,1]`, `[4,5]`, `[]` and leave `2, 3` in the array | consecutive batches `[0,1]`, `[2,3]`, `[4,5]` (splice at 0 each time) | not executed | SdkHelpers.BatchedAsWrittenSkips | SdkHelpers.ChunksCover |
| sdk/src/constants.ts:174 | the `reduce` callback `(obj, [key, v]) => (obj[key] = v)` returns the assigned coin, not the accumulator | mainnet with every symbol allowed returns one coin object instead of a record | a record of the allowed coins keyed by address | not executed | SdkConstants.MainnetAsWrittenIsOneCoin | SdkConstants.CoinsForBalanceFilters |
| subgraph/mapping/pool.ts:756-763 | `index` starts at 0 and `splice(index, 1)` runs even when no public pool matches | public pools `[0xa, 0xb]` and pool `0xc` leave `[0xb]` | remove nothing when the pool is not listed | not executed | PrimeRegistry.RemoveUnlistedAsWritten | PrimeRegistry.RemoveIncludingSpec |
| subgraph/mapping/pool.ts:838-846 | the inner loop re-declares `memberId` for every Prime member, and splices at indices of the unspliced `pool.members` | pool listing `pa`, `pb`, with members `a`, `b`, and `a` blacklisted: `pb`'s membership is deleted while the pool still lists it | only the blacklisted member leaves, and every other membership stays | not executed | PrimeRegistry.RemovePrimeMemberAsWrittenDropsOthers | PrimeRegistry.LeavePoolsKeepsOthers |
