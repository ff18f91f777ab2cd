# Spring-equinox campaign: data manager, admin table and editor guards

A Dafny model of the sequential logic of a seasonal marketing web
application. The application has a mobile activity page (vote, lottery,
"beans" currency, shop redemption) and an admin back office. Everything is
persisted in browser storage, and four pieces of logic carry real behaviour.

- **Data manager** (`data_manager.dfy`, with `directory.dfy` and `seed.dfy`).
  It owns one state value: the activity collection plus the global bundle of
  shop products, bean balance, transaction ledger and orders. Every call
  becomes a pure transition. Storage is the `Snapshot` of the state after each
  call, and `Storage` records which keys exist at start-up. The model covers
  id-keyed upsert and delete of activities and shop products, `addBeans`,
  `redeemProduct` with its balance check and stock step, `recordLotteryWin`,
  and `load`: seeding plus the legacy title/subtitle migration.
- **Admin table** (`data_table.dfy`). It covers the search/status filter, the
  page count, page slices, the windowed page-number list with `'...'` markers,
  and prev/next clamping.
- **Activity editor** (`activity_editor.dfy`). It covers the index-based list
  edits of quiz questions, quiz options, vote options and recommendation
  products, and the save guard.
- **Landing page guards** (`spring_equinox_page.dfy`). They cover the address
  form validator (JavaScript `trim`, the mobile-number pattern
  `^1[3-9]\d{9}$`), the vote-submit checks and the lottery start guard.

`types.dfy` mirrors the persisted record shapes. Optional fields are
`Option`s and string unions are datatypes. `seq_util.dfy` holds the
JavaScript array and string primitives the code relies on: `filter`, index
removal, `slice` and `includes`.

Ids (`Date.now()`) and timestamps (`toLocaleString()`, `toISOString()`)
enter as parameters (`stamp`, `now`, `createdAt`). A redemption reads the
clock once for its expense entry and once for its order, so it takes two ids
and two times. The data manager's getters (`getActivities`,
`getShopProducts`, `getUserBeans`, `getTransactions`, `getOrders`) are the
fields of `DataState`/`GlobalData`. `getActivity` is `GetActivity`.

## Model

| member | source | states |
|---|---|---|
| Directory.FindIndex | src/services/DataManager.ts:187 | the reported index is the first one holding the id; none exactly when no entry has it |
| Directory.Find | src/services/DataManager.ts:182-184 | the first entry holding the id, which is in the list; none exactly when no entry has it |
| Directory.Upsert | src/services/DataManager.ts:186-194 | an existing id replaces its first match at the same index and leaves everything else alone; a new id is appended at the end |
| Directory.Delete | src/services/DataManager.ts:196-199 | no entry with the id survives; every other entry survives as often as it occurred; nothing new appears |
| Directory.DeletePreservesOrder | src/services/DataManager.ts:197 | the surviving entries keep their original order |
| Directory.FindAfterUpsert | src/services/DataManager.ts:186-194 | a lookup of the saved id returns the saved entry |
| Directory.FindOtherAfterUpsert | src/services/DataManager.ts:186-194 | saving never changes the lookup of a different id |
| Directory.FindAfterDelete | src/services/DataManager.ts:196-199 | after deletion the id is not found, and every other id looks up as before |
| Directory.UpsertKeepsKeysUnique | src/services/DataManager.ts:186-194 | a save keeps ids unique and adds exactly the saved id to the id set |
| Directory.SaveAllIsUpsertMap | src/services/DataManager.ts:186-194 | after any run of saves there is one entry per distinct id, and each id holds its most recent save |
| DataManager.GetActivity | src/services/DataManager.ts:182-184 | returns the first activity with the requested id, or nothing exactly when none exists |
| DataManager.SaveActivity | src/services/DataManager.ts:186-194 | the activity upsert; the global bundle is untouched |
| DataManager.DeleteActivity | src/services/DataManager.ts:196-199 | removes every activity with the id; every other activity is kept as often as it occurred and in its order; the global bundle is untouched |
| DataManager.SaveShopProduct | src/services/DataManager.ts:207-216 | the product upsert; activities, balance, ledger and orders are untouched |
| DataManager.DeleteShopProduct | src/services/DataManager.ts:218-221 | removes every shop product with the id; every other product is kept as often as it occurred and in its order; nothing else changes |
| DataManager.AddBeans | src/services/DataManager.ts:233-243 | the balance rises by the amount; exactly one income entry (amount, source) is put at the head of the ledger; products, orders and activities are unchanged |
| DataManager.DecrementStock | src/services/DataManager.ts:270-276 | the stock drops by one only on the first live entry with the product's id, and only when the passed-in stock is positive and the live stock is set and non-zero; otherwise the list is unchanged |
| DataManager.RedeemProduct | src/services/DataManager.ts:245-280 | fails exactly when the balance is below the price, and then the state is unchanged; on success the balance drops by the price and stays at least 0, and one expense entry `兑换-<name>` and one pending redeem order with the address go first, each with its own id and time; the stock step follows `DecrementStock` |
| DataManager.RecordLotteryWin | src/services/DataManager.ts:282-299 | a beans prize is exactly `AddBeans(amount, '幸运抽奖')`; an eggs prize puts one free pending lottery order first and leaves balance and ledger alone |
| DataManager.BackfillItem | src/services/DataManager.ts:122-130 | a missing or empty subtitle is filled from the first seed with the same id when that seed's subtitle is non-empty, and only then; a present subtitle is kept; no other field changes; the flag is set exactly when something changed |
| DataManager.BackfillList | src/services/DataManager.ts:121-131 | every item is backfilled in place, and the needs-save flag is set exactly when the list changed |
| DataManager.MigrateActivity | src/services/DataManager.ts:113-144 | the legacy title is replaced by the current title and subtitle; the food and product lists are backfilled; the id and the other fields are kept; the flag is set exactly when the activity changed |
| DataManager.Migrate | src/services/DataManager.ts:109-149 | when the first activity has id `spring_equinox_2024` it is replaced by its migrated form and needs-save is the migration's flag; otherwise nothing changes and nothing is saved; later activities are never touched |
| DataManager.Load | src/services/DataManager.ts:103-166 | missing keys are seeded and written; a stored bundle is taken as is; stored activities come back migrated, and are rewritten exactly when the migration changed them; the storage afterwards is the snapshot of the state |
| DataManager.Snapshot | src/services/DataManager.ts:168-174 | after a call both storage keys are present and hold exactly the activity collection and the global bundle; `SnapshotRoundTrip` ties this to what start-up reads back |
| DataManager.SnapshotRoundTrip | src/services/DataManager.ts:103-174 | loading a snapshot whose activities need no migration gives back the same state, the same storage, and writes nothing |
| DataManager.SavedLegacyTitleIsRenamed | src/services/DataManager.ts:110-118 | the migration is keyed on the title: an activity saved under the legacy id with the title `春分·竖蛋` (the editor's placeholder, src/pages/admin/ActivityEditor.tsx:211) comes back from the next start-up titled `春分到，蛋儿俏`, and is rewritten |
| DataManager.LegacySnapshotIsUpgraded | src/services/DataManager.ts:109-131 | a stored legacy activity whose first food `f1` has no subtitle comes back with the current title and subtitle and with subtitle `山野之鲜`, and is written |
| DataManager.LedgerStaysBalanced | src/services/DataManager.ts:233-256 | the balance equals the ledger's net sum on a fresh install and after every operation |
| DataManager.BalanceStaysNonNegative | src/services/DataManager.ts:245-249 | starting from a non-negative balance and crediting a non-negative amount, no operation makes the balance negative |
| DataManager.MigrateIdempotent | src/services/DataManager.ts:109-149 | migrating an already-migrated collection changes nothing and requests no save |
| DataManager.MigrateKeepsPresentSubtitles | src/services/DataManager.ts:123-136 | food and product entries that already have a subtitle are never overwritten |
| DataManager.SeedActivityIsMigrated | src/services/DataManager.ts:72-88 | the built-in activity is a fixed point of the migration |
| DataManager.LoadTwiceChangesNothing | src/services/DataManager.ts:103-166 | loading what the first start-up stored gives the same state and writes nothing |
| DataManager.FreshStartSeedsBalance | src/services/DataManager.ts:155-165 | empty storage yields balance 100, exactly one income entry (100, `首次登录`), no orders and four shop products |
| DataManager.RedeemScenarios | src/services/DataManager.ts:245-280 | 100 beans cannot buy the 500-bean bag and nothing changes; 1000 beans buy it, leaving 500 beans and 19 in stock |
| SeqUtil.Filter | src/components/admin/DataTable.tsx:36 | every kept element satisfies the predicate, every satisfying element is kept, nothing else appears, and a predicate true everywhere keeps the list as is |
| SeqUtil.FilterKeepsMultiplicity | src/components/admin/DataTable.tsx:36 | each satisfying element is kept as many times as it occurs, and every other element zero times |
| SeqUtil.FilterIsSubsequence | src/components/admin/DataTable.tsx:36 | the filtered list is an order-preserving subsequence |
| SeqUtil.DropIndex | src/pages/admin/ActivityEditor.tsx:94-96 | filtering out index k removes exactly that element and keeps the rest in order; an out-of-range k changes nothing. The editor deletes vote options (lines 361-363) and questions (lines 465-466) with the same index filter |
| SeqUtil.JsSlice | src/components/admin/DataTable.tsx:60-63 | from a start within the list, the slice runs to the end bound clamped at the list's length; a start past the end, or a non-negative end not after the start, gives an empty slice |
| SeqUtil.Includes | src/components/admin/DataTable.tsx:38 | a needle longer than the text is never found; a prefix always is |
| SeqUtil.IncludesMeansOccurs | src/components/admin/DataTable.tsx:38 | the substring search succeeds exactly when the needle occurs at some offset |
| DataTable.Lower | src/components/admin/DataTable.tsx:38 | each capital A-Z becomes the letter 32 code points on, every other character is kept, and no capital is left |
| DataTable.Filtered | src/components/admin/DataTable.tsx:35-56 | the result is an order-preserving subsequence of the data; each kept row appears as often as in the data and every other row not at all; no row excluded by the status filter survives |
| DataTable.EmptySearchKeepsEverything | src/components/admin/DataTable.tsx:36-54 | with an empty search and no status filter in force, every row is kept |
| DataTable.TotalPages | src/components/admin/DataTable.tsx:59 | the least number of pages of `size` rows that holds all rows |
| DataTable.PageSlice | src/components/admin/DataTable.tsx:60-63 | page p holds at most `size` rows, namely rows (p-1)·size up to p·size, clipped at the end |
| DataTable.PagesArePrefix | src/components/admin/DataTable.tsx:60-63 | pages 1..k laid end to end are the first k·size rows |
| DataTable.PagesCoverAll | src/components/admin/DataTable.tsx:59-63 | concatenating pages 1..totalPages gives back exactly the filtered list |
| DataTable.PageNumbers | src/components/admin/DataTable.tsx:72-88 | at most five pages give one button per page; more give six or seven buttons from page 1 to the last page, seven exactly when the current page is away from both ends; near the start the second button is page 2, near the end the second-to-last is the page before the last |
| DataTable.PageNumbersShape | src/components/admin/DataTable.tsx:72-88 | for at most 5 pages the list is exactly 1..total; otherwise it has at most 7 buttons from 1 to total; numbers increase strictly within range; markers stand only on gaps; the current page is shown |
| DataTable.Prev | src/components/admin/DataTable.tsx:187 | goes back one page, never below 1 |
| DataTable.Next | src/components/admin/DataTable.tsx:214 | goes forward one page, never past the last page |
| DataTable.Step | src/components/admin/DataTable.tsx:65-214 | a new search, filter or page size resets to page 1; the arrows, shown only when there is a page, step back or forward with clamping; a click on a numbered button moves to exactly that number, a click on a marker or on no button changes nothing, and new data from the parent leaves the page as it is |
| DataTable.StepStaysInRange | src/components/admin/DataTable.tsx:186-214 | arrows, page buttons, resets and data changes keep the page at least 1, and within 1..total when it started there under that same total |
| DataTable.DataChangeCanStrandPage | src/components/admin/DataTable.tsx:29-64 | new data leaves the page where it was: eleven rows on page 2 of size 10, one deleted, leave page 2 of a one-page table showing no rows, and a click on the previous arrow brings it back to page 1 |
| ActivityEditor.AddQuestion | src/pages/admin/ActivityEditor.tsx:380-389 | appends one question with the three placeholder options and answer 0; the existing questions are kept |
| ActivityEditor.EditTitle | src/pages/admin/ActivityEditor.tsx:402-405 | changes the title only |
| ActivityEditor.SetCorrect | src/pages/admin/ActivityEditor.tsx:418-421 | the selected option becomes the answer; the options are unchanged |
| ActivityEditor.EditOption | src/pages/admin/ActivityEditor.tsx:427-430 | rewrites option k only; the answer index is unchanged |
| ActivityEditor.AddOption | src/pages/admin/ActivityEditor.tsx:452-455 | appends `新选项` and keeps the answer index |
| ActivityEditor.RemoveOption | src/pages/admin/ActivityEditor.tsx:435-445 | does nothing at two options or fewer; otherwise removes option k in order, resets the answer to 0 if it was k, and shifts it down if it came after k |
| ActivityEditor.RemoveOptionKeepsAnswer | src/pages/admin/ActivityEditor.tsx:437-440 | removing a non-answer option keeps the same answer text selected, in bounds |
| ActivityEditor.QuestionEditsKeepValid | src/pages/admin/ActivityEditor.tsx:418-455 | every question edit keeps at least two options and an in-bounds answer |
| ActivityEditor.AddVoteOption | src/pages/admin/ActivityEditor.tsx:304-313 | appends one zero-vote option without image; the existing options are kept |
| ActivityEditor.EditVoteOption | src/pages/admin/ActivityEditor.tsx:329-354 | changes only the named field of option k |
| ActivityEditor.AddItem | src/pages/admin/ActivityEditor.tsx:67-80 | appends one item with display order = old length + 1, price 0 and currency CNY; existing items are unchanged |
| ActivityEditor.AddItemKeepsOrdersConsecutive | src/pages/admin/ActivityEditor.tsx:67-80 | a list numbered 1..n by display order is numbered 1..n+1 after an add |
| ActivityEditor.RemoveThenAddRepeatsOrder | src/pages/admin/ActivityEditor.tsx:67-96 | the display order comes from the list length, so deleting the first of n ≥ 2 items and adding one gives the last two items the same order n |
| ActivityEditor.UpdateItem | src/pages/admin/ActivityEditor.tsx:82-92 | changes only the named field of item k; every item keeps its id and display order |
| ActivityEditor.HandleSave | src/pages/admin/ActivityEditor.tsx:48-52 | saves nothing exactly when the name or the id is empty; otherwise performs the activity upsert |
| SpringEquinoxPage.Trim | src/pages/SpringEquinoxActivity.tsx:57 | the result is an infix of the input with only whitespace removed before and after it, and it neither starts nor ends with whitespace |
| SpringEquinoxPage.BlankIffAllWhitespace | src/pages/SpringEquinoxActivity.tsx:57 | a field trims to empty exactly when every character is whitespace |
| SpringEquinoxPage.MobilePatternMeaning | src/pages/SpringEquinoxActivity.tsx:59 | the pattern accepts exactly 11-character strings of `1`, a digit 3-9, then nine digits |
| SpringEquinoxPage.PaddedPhoneRejected | src/pages/SpringEquinoxActivity.tsx:59 | the pattern is tested on the untrimmed phone, so leading or trailing whitespace fails it |
| SpringEquinoxPage.Errors | src/pages/SpringEquinoxActivity.tsx:55-60 | the name and address errors are set exactly when the field is blank; a blank phone gets the required error, never the format error; a non-blank phone gets the format error exactly when it is not a mobile number |
| SpringEquinoxPage.Validate | src/pages/SpringEquinoxActivity.tsx:55-63 | returns the per-field error messages `Errors` describes, and passes exactly when no field has an error, that is, when name and address are non-blank and the phone is a mobile number |
| SpringEquinoxPage.HandleSubmit | src/pages/SpringEquinoxActivity.tsx:65-69 | the form reaches `onSubmit`, unchanged, exactly when name and address are non-blank and the phone is a mobile number |
| SpringEquinoxPage.SubmitVote | src/pages/SpringEquinoxActivity.tsx:211-220 | rejects when nothing is selected, rejects option `5` with a blank comment, and accepts otherwise |
| SpringEquinoxPage.HandleVote | src/pages/SpringEquinoxActivity.tsx:205-208 | the selection is frozen after voting and while drawing |
| SpringEquinoxPage.SubmitEnabled | src/pages/SpringEquinoxActivity.tsx:484 | the submit button is clickable exactly when no submission is running and, for option `5`, the comment is not blank |
| SpringEquinoxPage.EnabledSubmitIsAccepted | src/pages/SpringEquinoxActivity.tsx:483-484 | with a choice made, an enabled submit button always passes `submitVote`'s guards |
| SpringEquinoxPage.StartLottery | src/pages/SpringEquinoxActivity.tsx:240-243 | does nothing while drawing or once the prize is won or the address is given; otherwise starts drawing |
| SpringEquinoxPage.DrawFinished | src/pages/SpringEquinoxActivity.tsx:246-249 | when the draw's timer fires, drawing stops and the prize is won |
| SpringEquinoxPage.AddressSubmitted | src/pages/SpringEquinoxActivity.tsx:258-263 | submitting the address marks the prize as claimed and leaves the drawing flag alone |
| SpringEquinoxPage.NoSecondDraw | src/pages/SpringEquinoxActivity.tsx:240-263 | a started draw is not restarted, and after the win (and after the address) no further draw starts |

## Left out

- localStorage reads and writes, and JSON parse and stringify. Persistence is the state value after each call, and a stored value reads back as written. Start-up with corrupted stored text is not modelled.
- Stored activities whose first entry lacks `recommendedFoods` or `recommendedProducts` altogether. The model's lists are always present, so the `if (…recommendedFoods)` guards are not modelled.
- Decimal CNY display prices. `Product.price` is an integer. The seed recommendation products carry their prices in fen (28.8 is stored as 2880). No operation computes with CNY prices.
- Seed.InitialFoods, Seed.InitialProducts, Seed.InitialSpots, Seed.InitialShopProducts: every seed entry shares one `createdAt` value, where the source calls `toISOString()` once per entry. No logic reads these stamps.
- ActivityEditor.EditVoteOption: the vote count is an integer. The source stores `Number(e.target.value)`, which can be a fraction or `NaN`. No logic computes with vote counts.
- Seed image URLs are replaced by symbolic names (`image:f1`), because no logic reads them.
- In-place mutation and aliasing: `getActivities` returning the live array, and the editor pushing into an option array shared with the previous form state. The value model gives the same resulting values.
- DataManager.AddBeans: a negative amount is not rejected, as in the source. `BalanceStaysNonNegative` therefore assumes a non-negative amount.
- DataTable.Lower: folds only the ASCII letters A-Z, not full Unicode `toLowerCase`.
- DataTable.Filtered: rows are abstracted as their id, the string forms of their other values and an optional status. JavaScript's `Object.values` and `String()` coercion are not modelled.
- DataTable.PageSlice: requires page ≥ 1 and size > 0. `StepStaysInRange` shows the page stays at least 1. The page size comes from a 10/20/50 select with default 10.
- DataTable.StepStaysInRange: the in-range promise holds only while the page count is the one the page was chosen under. A data change from the parent (a deletion in the activity or shop admin) can shrink the count below the current page, as `DataChangeCanStrandPage` shows; the table does not clamp.
- ActivityEditor.HandleSave: an absent name or id (`undefined`) is modelled as the empty string. Both are falsy in the source's guard.
- SpringEquinoxPage.IsJsWhitespace: uses the ECMAScript WhiteSpace and LineTerminator code points. It takes no account of engine-specific Unicode tables.
- The timers (`setTimeout`) and `Math.random` of the landing page. The draw's completion is the explicit transition `DrawFinished`. The simulated vote submission, the participant counter and the comment list are not modelled.
- The standalone shop mock (`src/pages/BeansShop.tsx`) and the second landing page (`src/pages/SpringEquinoxV2.tsx`). Neither is part of this model: the first never calls the data manager, and the second only forwards to it behind timers and randomness.
- CSV export in the shop and lottery-record admin pages, and the shop product form glue. These are string concatenation for a browser download.
- `src/components/AddressModal.tsx`. Its validation is left to the browser's `required` and `pattern` attributes.
- `convert-docx.js`, an offline document converter, and the pure UI and routing components.
