# novafund core in Dafny

novafund is a Next.js application for fundraising campaigns whose donations are
single-use 12-digit redemption codes. This project models its core in Dafny:

- **generation** (`POST /api/generate`): validate a campaign request, insert the
  campaign, draw one random 12-digit token per requested code (redrawing while
  `checkUniqueCodeExists` finds the token among the campaign's committed rows),
  bulk-insert the code rows and commit, or roll back on any failed query;
- **redemption** (`POST /api/validate`): look a token up joined with its campaign,
  refuse a missing, unknown or used code, otherwise mark every row carrying the token
  as used and answer with the matched row's amount and campaign name;
- **the campaign listing** (`getCampaigns` on the home page): every campaign with its
  total codes, used codes and redeemed sum, newest first;
- **`formatDate`**: a timestamp shown as `MM/DD/YYYY, HH:MM:SS UTC`.

The two tables are one immutable value, `Store.Store`; each handler is a pure function
from a request and a store to a response and a store, so a call is one atomic step and
calls are serialised. Randomness is a parameter: an oracle sequence of the handler's
draws in order, each draw being the value of the token it gives minus 100000000000. Failures are a parameter too:
a fault schedule names the one query of a call that throws. Monetary amounts are
`real`. The server clock, the database's `CURRENT_TIMESTAMP` and the row-creation time
are `Timestamp` parameters. `new Date(...)` is a `parse` function parameter of
`formatDate`.

Three facts about the code shape the model:

- `checkUniqueCodeExists` (`src/app/api/generate/route.ts:121-127`) queries committed
  rows only, through the pool and outside the transaction. It never sees the batch
  buffered so far, so one batch can hold a token twice (`Generate.BatchMayRepeatToken`).
- No uniqueness constraint on `unique_code` is visible in the code, so the model assumes
  none. The bulk insert therefore accepts a batch with a repeated token.
- The retry loop (`src/app/api/generate/route.ts:64-68`) has no bound. The model's
  `DrawsExhausted` outcome marks the end of the oracle's draws, not a bound in the code.

Modules: `Wrappers` (`Option`), `Decimal` (decimal text of numbers and its parser),
`Store` (rows, the tables, id allocation, foreign key, used/used_at consistency), `Generate`,
`Validate`, `Campaigns`, `Helpers` (`formatDate`), and `Accounting` (how the two
handlers move the listing's aggregates).

## Model

| member | source | states |
|---|---|---|
| Generate.CreateCampaign | src/app/api/generate/route.ts:36-108 | A request with a falsy required field answers 400 "Missing required fields" and one with `maxCodes` above 25000 answers 400 "Max codes cannot exceed 25000"; every outcome other than 201 leaves the store unchanged; a valid request never answers 400; a `ServerError`, with the rollback message, is answered exactly when the fault schedule names one of the queries the call makes (`Generate.QueriesMade`: `BEGIN`, the campaign insert, every check including retried ones, then the bulk insert and `COMMIT` once the loop completes); a 201 comes only from a call in which none of its first `4 + codesGenerated` queries failed (a lower bound on the queries it made, since retried checks come on top); a 201 answers the new campaign's id and name and `max(0, maxCodes)` codes, appends exactly one campaign with `current_amount` 0 and the request's `max_codes`, keeps every existing row, and appends exactly that many unused code rows of the new campaign with the request's amount, well-formed tokens, and tokens absent from the campaign's committed rows |
| Generate.CreatedIsFaultFree | src/app/api/generate/route.ts:47-108 | A 201 under a fault schedule is exactly the answer and store of the same call with no fault schedule at all |
| Generate.FailedQueryRollsBack | src/app/api/generate/route.ts:47-107 | A failure of any query the call makes (`BEGIN`, campaign insert, every check including retried ones, bulk insert, `COMMIT`) answers 500 with the rollback message and the store unchanged |
| Generate.UnreachedFaultChangesNothing | src/app/api/generate/route.ts:47-102 | A fault scheduled after the last query the call makes strikes nothing: the answer and store are those of the call with no fault, a 201 included |
| Generate.GenerateTokensReached | src/app/api/generate/route.ts:61-76 | With `BEGIN` and the insert spared, the for loop fails exactly when the fault names one of the checks its fault-free run makes, and is otherwise that run |
| Generate.DrawUniqueUnderFault | src/app/api/generate/route.ts:63-68 | A retry loop that accepts a token, or runs out of draws after checking each of them, without a fault fails when any of its own check queries fails and is unaffected by a failure of a later query |
| Generate.GenerateTokensUnderFault | src/app/api/generate/route.ts:61-76 | A for loop that completes, or runs out of draws after checking each of them, without a fault fails when any of its check queries fails and is unaffected by a failure of a later query |
| Generate.CheckUniqueCodeExists | src/app/api/generate/route.ts:121-127 | The query `SELECT 1 FROM unique_codes WHERE unique_code = $1 AND campaign_id = $2` returns a row exactly when a committed row of the campaign carries the token; the batch buffered so far is not consulted |
| Generate.SelectOneFinds | src/app/api/generate/route.ts:122-126 | The rows matching both the token and the campaign id are non-empty exactly when some committed row matches both |
| Generate.CreateCampaignSucceeds | src/app/api/generate/route.ts:47-102 | A valid request on a store that keeps its foreign key, with no fault and enough draws, always succeeds, and its i-th code carries the i-th draw's token |
| Generate.MaxCodesBoundary | src/app/api/generate/route.ts:40-42 | The cap is inclusive: 25000 codes are generated, 25001 are refused with the store unchanged |
| Generate.NegativeMaxCodesMakesEmptyCampaign | src/app/api/generate/route.ts:36-42 | A negative `maxCodes` passes both guards and the for loop never runs: the campaign is created with zero codes |
| Generate.BatchMayRepeatToken | src/app/api/generate/route.ts:61-76 | The uniqueness check sees committed rows only, so two equal draws within one batch give two rows of the same campaign with the same token |
| Generate.Token | src/app/api/generate/route.ts:65-67 | Every generated token is twelve decimal digits with a non-zero first digit |
| Generate.TokenValue | src/app/api/generate/route.ts:65-67 | A token reads back as `100000000000 + draw`, within 100000000000 to 999999999999 |
| Generate.TokenInjective | src/app/api/generate/route.ts:65-67 | Two draws give the same token exactly when they are equal |
| Generate.DrawUnique | src/app/api/generate/route.ts:63-68 | One retry loop either accepts a later draw after one check query per draw, or fails on a query it made, or runs out of draws |
| Generate.DrawUniqueSound | src/app/api/generate/route.ts:63-68 | An accepted token is the last draw's, its check found nothing, every earlier draw of the loop was found, and none of the loop's queries failed |
| Generate.DrawOne | src/app/api/generate/route.ts:63-68 | The do/while loop as written computes the same outcome as `DrawUnique` |
| Generate.GenerateTokens | src/app/api/generate/route.ts:61-76 | A completed for loop buffers exactly `n` tokens and makes one query per draw; a failed one names a query at or after the loop's first |
| Generate.GenerateTokensSound | src/app/api/generate/route.ts:61-76 | Every buffered token is well formed and was absent from the campaign's committed rows, and no query of the loop failed |
| Generate.GenerateTokensFirstDraws | src/app/api/generate/route.ts:61-76 | For a campaign with no committed rows and no fault, the batch is exactly the next `n` draws, one each |
| Generate.GenerateTokensStep | src/app/api/generate/route.ts:62-75 | One turn of the for loop: a failed draw ends the batch with that failure, an accepted token is buffered ahead of the remaining turns |
| Generate.Turn | src/app/api/generate/route.ts:62-75 | One turn of the for loop, with tokens already buffered, ends the batch on a failed retry loop or leaves it as the buffer plus the accepted token ahead of the remaining turns |
| Generate.GenerateCodes | src/app/api/generate/route.ts:61-76 | The for loop as written, counting `i` from 0 while `i < maxCodes` and buffering into `codes`, computes the same batch as `GenerateTokens` for `max(0, maxCodes)` codes |
| Validate.Redeem | src/app/api/validate/route.ts:10-74 | A missing or empty `unique_code` answers 400 "Unique code is required"; every outcome other than success leaves the store unchanged; a 500 is answered exactly when the fault schedule names one of the queries the call makes (`Validate.RedeemQueries`: `BEGIN`, `SELECT` and `ROLLBACK` for an unknown or used code, `BEGIN`, `SELECT`, `UPDATE` and `COMMIT` for a redeemable one), and a success comes only from a call in which none of its four queries failed; with no fault: 404 exactly when no row joined with its campaign carries the token, 400 "already used" exactly when the first such row is used, success exactly when it is unused, answering that row's pre-update amount, its campaign's name and the clock; success keeps the campaigns and marks used at `CURRENT_TIMESTAMP` every row carrying the token, in any campaign, and changes no other row |
| Validate.UnreachedFaultChangesNothing | src/app/api/validate/route.ts:18-68 | A fault scheduled after the last query the call makes strikes nothing: an unknown code still answers 404, a used one "already used", a redeemable one success, with the store of the call with no fault |
| Validate.FirstMatchFrom | src/app/api/validate/route.ts:21-35 | The lookup's first row is the first position whose token matches and whose campaign exists; no earlier position qualifies, and `None` means none does |
| Validate.FirstMatchAfterMarkUsed | src/app/api/validate/route.ts:46-52 | The update changes no token and no campaign, so a later lookup of any token finds the same row |
| Validate.RedeemExactlyOnce | src/app/api/validate/route.ts:37-55 | An unused code redeems, and the same code on the resulting store is refused as already used with that store unchanged |
| Validate.RedeemPreservesInvariants | src/app/api/validate/route.ts:46-52 | A redemption keeps the foreign key and used/used_at consistency, never turns a used row back to unused, and never changes a row's campaign, token or amount |
| Validate.RepeatedAfterUse | src/app/api/validate/route.ts:37-43 | Once a code is used, every later attempt answers "already used" and changes nothing |
| Validate.ExactlyOneOfMany | src/app/api/validate/route.ts:37-55 | Of any number of serialised redemptions of an unused code, exactly the first succeeds |
| Campaigns.GetCampaigns | src/app/page.tsx:11-21 | One row per row of `campaigns` — each campaign exactly once, since `GROUP BY c.id` groups on the primary key, and the left join keeps campaigns without codes — ordered by `created_at` descending, each row with its campaign's code count, used count and redeemed sum |
| Campaigns.InsertByCreated | src/app/page.tsx:20 | Insertion into a newest-first list keeps it ordered and adds exactly the one campaign |
| Campaigns.SortByCreatedDesc | src/app/page.tsx:20 | The ordering is a permutation of the campaigns, newest first |
| Campaigns.TotalCodesIsRowCount | src/app/page.tsx:14 | `total_codes` is the number of code rows whose `campaign_id` is the campaign's id |
| Campaigns.UsedCodesBounded | src/app/page.tsx:14-15 | `used_codes` never exceeds `total_codes` |
| Campaigns.NoRowsMeansZeros | src/app/page.tsx:14-18 | A campaign without code rows shows 0, 0 and a sum of 0 |
| Campaigns.AggregatesOfConcat | src/app/page.tsx:14-16 | The aggregates over two runs of rows are the sums of the aggregates over each |
| Campaigns.AggregatesAfterUse | src/app/page.tsx:14-16 | Turning one unused row used adds one used code and its amount to its own campaign and changes no other campaign's aggregates |
| Campaigns.UnusedBatchAggregates | src/app/page.tsx:14-16 | A batch of unused rows of one campaign adds its size to that campaign's total and nothing to any used count or sum |
| Accounting.RedeemRewritesOneRow | src/app/api/validate/route.ts:46-68 | When one row carries the token, a redemption answers that row's amount and campaign name and rewrites that row alone |
| Accounting.RedeemRaisesAggregates | src/app/page.tsx:11-21 | When one row carries the token, a redemption raises its campaign's used count by one and redeemed sum by its amount on the listing, leaving order, totals and every other campaign unchanged |
| Accounting.AppendBatchAggregates | src/app/page.tsx:14-18 | Appending a new campaign with its own unused rows leaves existing campaigns' aggregates alone and shows the new one with all codes unused |
| Accounting.CreateAddsFreshAggregates | src/app/api/generate/route.ts:50-91 | After a successful creation the listing has one more campaign, showing `codesGenerated` codes, none used and a sum of 0, and every existing campaign shows what it showed before |
| Accounting.CreatePreservesInvariants | src/app/api/generate/route.ts:70-75 | Creation keeps the foreign key and used/used_at consistency |
| Accounting.RedeemedAmountIsCodeAmount | src/app/api/validate/route.ts:57-64 | A new code whose token no earlier row carries redeems for exactly the `codeAmount` its campaign was created with |
| Store.NextCampaignId | src/app/api/generate/route.ts:50-58 | The id the serial column returns is larger than every id in use |
| Store.FindCampaign | src/app/api/validate/route.ts:24 | The join finds a campaign with the row's id exactly when one exists |
| Store.NoRowsForFreshCampaign | src/app/api/generate/route.ts:58 | Under the foreign key no committed row refers to the id the new campaign receives |
| Decimal.NatToString | src/app/api/generate/route.ts:67 | `toString()` of a non-negative integer is a non-empty digit string, starting with '0' only for zero |
| Decimal.ParseNatToString | src/app/api/generate/route.ts:67 | Reading the decimal text of a number gives the number back |
| Decimal.NatToStringInjective | src/app/api/generate/route.ts:67 | Two numbers have the same decimal text exactly when they are equal |
| Decimal.NatToStringLength | src/app/api/generate/route.ts:65-67 | A number from 10^k to 10^(k+1) - 1 has k + 1 digits |
| Decimal.ParseIntToString | src/lib/helpers.ts:6 | Reading the text of an integer, sign included, gives the integer back |
| Helpers.PadStart2Shape | src/lib/helpers.ts:7-11 | `padStart(2, "0")` keeps the text as its suffix, reaches two characters, and fills only with zeros |
| Helpers.FieldIsTwoDigits | src/lib/helpers.ts:7-11 | A value from 0 to 99 padded to two characters is exactly two digits reading back as the value |
| Helpers.TemplateLayout | src/lib/helpers.ts:13 | Where each field and separator lands in the template |
| Helpers.FormatLayout | src/lib/helpers.ts:6-13 | Month plus one, day, hours, minutes and seconds take two characters each at fixed places; the year sits unpadded between day and time |
| Helpers.FormatRoundTrip | src/lib/helpers.ts:6-13 | The formatted text determines the date: parsing it back gives the same fields |
| Helpers.FormatDate | src/lib/helpers.ts:1-14 | A null or empty date string gives "-"; any other string whose date lies in calendar range gives text that reads back as exactly that date's UTC fields |

## Left out

- The `GET` handler of `src/app/api/generate/route.ts` (lines 4-13), the other pages, the React rendering and the date formatting with `date-fns` on the pages are not part of this model.
- JSON parsing of request bodies, `pool.connect` failures and the outer catch of the generate handler (its 500 "Failed to create campaign and generate codes.") are I/O around the core.
- A request field of the wrong JavaScript type (a string `maxCodes`, `NaN`, a fractional `maxCodes`) is not modelled: fields are `Option` values of their declared types, `None` standing for `undefined` or `null`.
- Monetary amounts are `real`; PostgreSQL `numeric` and JavaScript floating point rounding are not modelled.
- `Math.random` is an oracle parameter. The retry loop is unbounded in the source; the model stops with `DrawsExhausted` (store unchanged) when the oracle runs out, after checking every draw; `Generate.QueriesMade` counts those checks and no `ROLLBACK` for that outcome.
- `new Date(dateString)` is the `parse` parameter of `Helpers.FormatDate`, and `validated_at` (an ISO string of the server clock) is the `clock` timestamp.
- Concurrency, row locks (`FOR UPDATE`) and isolation levels: handler calls are serialised atomic steps. Two concurrent generations or redemptions are not modelled.
- Only one query of a call fails per schedule, so the path where the `ROLLBACK` in a catch itself fails is not modelled. Serial ids consumed by a rolled-back insert are not modelled either: ids are one more than the largest in use.
- Database constraints not visible in the source (a unique index on `unique_code`, defaults) are not assumed, except the foreign key from code rows to campaigns, stated as `Store.ReferencesValid` and required only where a property needs it.
- The tie order of `ORDER BY c.created_at DESC` is left to the database; `Campaigns.SortByCreatedDesc` fixes one order.
- The stored `current_amount` column is written as 0 at creation and never updated; the listing shadows it with the recomputed sum, which is what `Campaigns.GetCampaigns` returns.
- Helpers.FormatDate: the round trip is stated for dates whose month, day, hours, minutes and seconds lie in calendar range; for an invalid date (`NaN` fields) only the "-" case is stated.
- Generate.GenerateTokensSound: tokens are fresh with respect to committed rows only; distinctness within one batch does not hold (`Generate.BatchMayRepeatToken`) and is not claimed.
- Validate.Redeem: the successful answer is stated for the first joined row in storage order; PostgreSQL promises no row order for this query, so which of several rows sharing a token answers is a choice of this model.
