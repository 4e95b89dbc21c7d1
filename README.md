# Task, inventory, validation, export, catalogue, shipping and statistics routines — a verified Dafny model

This project models a collection of small JavaScript routines and proves
properties about them:

- **Task ranking** (`task_priority.dfy`). Each task gets an importance score from its priority, due date, status and alarm tags. `sortTasksByImportance` ranks a list of tasks, highest score first, and `getTopPriorityTasks` returns the first N of that ranking. The scoring code itself is not part of this model; the behaviour is the one its Jest tests fix, and where they are silent the model picks values (listed under "Left out"). The ranking uses a stable insertion sort, shared with the product listing (`sorting.dfy`).
- **Inventory processing** (`inventory.dfy`). `processInventory` walks the requested items, finds each in an inventory array and decrements the stock in place when enough is left. It is a method over an `array`, proved against a specification function.
- **User-data validation** (`user_validation.dfy`). Covers the username, password, email, address and phone validators, and `validateUserData`, which runs them and gathers their error messages in order.
- **CSV export** (`csv_export.dfy`). Covers `escapeCSV`, `getPriorityName` and the rows that `exportToCSV` writes. The exported text is read back by an RFC 4180 style parser to prove that it round-trips.
- **Product listing** (`product_api.dfy`). Covers the mock model's `find`, `findById` and `countDocuments`, and the `GET /` handler, which builds a filter, sorts on one field and returns one page.
- **Shipping** (`shipping.dfy`). Three strategies, a calculator object that holds one of them, the factory, and `calculateShippingCost`.
- **User statistics** (`user_statistics.dfy`). Averages and maxima of numeric properties, in a specific form and a generic form.

`common.dfy` holds `Option`, `Result`, `Count` and a subsequence predicate.

Integer widths do not matter anywhere here. Money, prices and costs are exact `real` numbers. Day numbers are `int`.

## Model

Source paths are relative to the repository root.

| member | source | states |
|---|---|---|
| TaskPriority.PriorityBase | use-cases/testing-001/javascript/TaskManager/tests/calculateTaskScore.test.js:166-181 | The priority base is between 0 and 40. It is 0 exactly for an unrecognised priority. |
| TaskPriority.DueDateBonus | use-cases/testing-001/javascript/TaskManager/tests/calculateTaskScore.test.js:44-95 | The due-date bonus is one of the tiers 0, 10, 15, 20 or 30. |
| TaskPriority.StatusModifier | use-cases/testing-001/javascript/TaskManager/tests/calculateTaskScore.test.js:97-126 | The status modifier is 0, -15 or -50. |
| TaskPriority.TagBoost | use-cases/testing-001/javascript/TaskManager/tests/calculateTaskScore.test.js:128-164 | The tag boost is 0 or 8. |
| TaskPriority.Score | use-cases/testing-001/javascript/TaskManager/tests/calculateTaskScore.test.js:8-199 | Every score lies between -50 and 78. |
| TaskPriority.PlainTaskScoresItsPriority | use-cases/testing-001/javascript/TaskManager/tests/calculateTaskScore.test.js:8-41 | With no due date or tags and TODO status, the score is the priority base: LOW 10, MEDIUM 20, HIGH 30, URGENT 40 (tested), unknown 0 (tested at :166-180). The same holds for IN_PROGRESS, which no test uses; it follows from the model's modifier 0 for that status. |
| TaskPriority.DueDateTiers | use-cases/testing-001/javascript/TaskManager/tests/calculateTaskScore.test.js:44-95 | A MEDIUM TODO task scores 40 due today, 35 tomorrow, 30 in a week and 50 when overdue by a day (all tested). Its fifth clause, 20 at eight days out, is not tested; it follows from the model's choice of no bonus beyond a week. |
| TaskPriority.DueDateBonusDecreasesWithDistance | use-cases/testing-001/javascript/TaskManager/tests/calculateTaskScore.test.js:44-95 | A later due date never earns more; overdue earns the most; no due date earns the least (immediate: it earns 0 and no tier is negative). The tests fix four points of this order (overdue 30 > today 20 > tomorrow 15 > next week 10); for the days between them it is a property of the tiers the model chose. |
| TaskPriority.StatusModifiers | use-cases/testing-001/javascript/TaskManager/tests/calculateTaskScore.test.js:97-126 | A MEDIUM task scores 20 as TODO, -30 as DONE and 5 in REVIEW. |
| TaskPriority.SingleTagBoost | use-cases/testing-001/javascript/TaskManager/tests/calculateTaskScore.test.js:128-164 | One tag adds exactly 8 if it is blocker, critical or urgent, and 0 otherwise. |
| TaskPriority.BoostDoesNotStack | use-cases/testing-001/javascript/TaskManager/tests/calculateTaskScore.test.js:128-164 | Three alarm tags score the same as one. No test puts two alarm tags on one task; this is the model's choice of a flat boost, named under Left out. |
| TaskPriority.SortByImportance | use-cases/testing-001/javascript/TaskManager/tests/integration.test.js:21-71 | The ranking is a permutation of the input and scores never increase along it. |
| TaskPriority.TopPriority | use-cases/testing-001/javascript/TaskManager/tests/integration.test.js:73-89 | The top-N is the first min(N, length) tasks of the ranking. |
| TaskPriority.SortIsStableByScore | use-cases/testing-001/javascript/TaskManager/tests/integration.test.js:1 | Tasks with equal scores keep their input order. The tests never check tie order; stability is the model's choice for `sortTasksByImportance`, named under Left out. |
| TaskPriority.RankIsCountOfHigherScores | use-cases/testing-001/javascript/TaskManager/tests/integration.test.js:21-71 | The tasks scoring above k occupy exactly the first positions of the ranking; their number is the count of input tasks above k. |
| TaskPriority.TopPriorityIsTop | use-cases/testing-001/javascript/TaskManager/tests/integration.test.js:21-71 | The top-N is sorted and a sub-multiset of the input. No task left out outscores a task kept. |
| TaskPriority.EmptyInput | use-cases/testing-001/javascript/TaskManager/tests/integration.test.js:83-89 | An empty input gives an empty ranking and an empty top-N. |
| TaskPriority.LargeLimitReturnsAll | use-cases/testing-001/javascript/TaskManager/tests/integration.test.js:73-81 | A limit at least the list length returns the whole ranking. |
| TaskPriority.DefaultLimitIsFive | use-cases/testing-001/javascript/TaskManager/tests/integration.test.js:151-160 | With no limit, ten tasks yield five. |
| TaskPriority.SortDoesNotMutateInput | use-cases/testing-001/javascript/TaskManager/tests/integration.test.js:91-103 | Ranking [LOW, HIGH] puts HIGH first. The input list still reads [Task 1, …] afterwards; in the model that holds by construction, since sequences are immutable values, so the clauses on the input only mirror the test's literal checks. |
| TaskPriority.ScenarioScores | use-cases/testing-001/javascript/TaskManager/tests/integration.test.js:21-71 | The five fixture tasks score 20 (LOW), 45 (HIGH), 60 (URGENT), 10 (URGENT but DONE) and 38 (blocker). |
| TaskPriority.ScenarioRanking | use-cases/testing-001/javascript/TaskManager/tests/integration.test.js:21-71 | The five fixture tasks rank as Urgent, High, Blocker, Low, Completed. |
| TaskPriority.TopThreeScenario | use-cases/testing-001/javascript/TaskManager/tests/integration.test.js:21-71 | The top three are Urgent, High and Blocker, with "Urgent Task" first. |
| TaskPriority.MixedScores | use-cases/testing-001/javascript/TaskManager/tests/integration.test.js:105-149 | The mixed-factor tasks score 68, 48 and -40. |
| TaskPriority.MixedFactorOrdering | use-cases/testing-001/javascript/TaskManager/tests/integration.test.js:105-149 | The mixed-factor tasks rank 68, 48, -40. |
| Inventory.FindFromIsFirst | use-cases/refactor-patterns/javascript/inventory_processor.js:22-36 | The inner search returns the first inventory index with the item's id, or none when no entry has it. |
| Inventory.ProcessInventory | use-cases/refactor-patterns/javascript/inventory_processor.js:13-49 | The returned items, the total and the new array contents are exactly `Process` of the requested items and the old inventory. |
| Inventory.ProcessSnoc | use-cases/refactor-patterns/javascript/inventory_processor.js:17-43 | Processing one more request is one more step of the outer loop. |
| Inventory.TotalIsCharge | use-cases/refactor-patterns/javascript/inventory_processor.js:29-32 | The total is the sum of price × quantity over the successful items. |
| Inventory.StepEffect | use-cases/refactor-patterns/javascript/inventory_processor.js:22-36 | One request changes at most the first matching entry. It decrements that entry only when the stock suffices; otherwise nothing changes. |
| Inventory.UnmatchedIsNoOp | use-cases/refactor-patterns/javascript/inventory_processor.js:39-42 | An unknown item changes neither the items, the total nor the stock. |
| Inventory.SameIds | use-cases/refactor-patterns/javascript/inventory_processor.js:33 | The inventory keeps its length and its ids; only quantities change. |
| Inventory.StockConservation | use-cases/refactor-patterns/javascript/inventory_processor.js:27-33 | The total stock drops by exactly quantityOrdered per successful item. |
| Inventory.NeverNegative | use-cases/refactor-patterns/javascript/inventory_processor.js:27 | Every entry is either untouched or has a non-negative quantity. |
| Inventory.ItemsAreSubsequence | use-cases/refactor-patterns/javascript/inventory_processor.js:29 | The successful items are a subsequence of the requested items. |
| Inventory.BasicOrder | use-cases/refactor-patterns/javascript/inventory_processor.js:58-98 | The first test case: 2 items, total 60, stock 3/1/1. |
| Inventory.InsufficientStock | use-cases/refactor-patterns/javascript/inventory_processor.js:100-130 | Too little stock gives no items, total 0 and unchanged stock (quantity 1). |
| Inventory.UnknownItem | use-cases/refactor-patterns/javascript/inventory_processor.js:132-163 | An unknown item is skipped: 1 item, total 10. |
| UserValidation.ValidateUsername | use-cases/refactor-patterns/javascript/user_validation.js:9-27 | At most one error. No error exactly when the username is present, 3 to 20 characters, only `[A-Za-z0-9_]` and not taken. A missing or blank username gives exactly the "required" message. Otherwise the message is the first failing check's: too short, then too long, then bad characters, then taken. |
| UserValidation.ValidatePassword | use-cases/refactor-patterns/javascript/user_validation.js:30-54 | At most two errors. No error exactly when the password is strong and equals the confirmation. The mismatch message appears exactly when they differ, and it comes last. A missing or blank password gives only the "required" message. For a present password, the first error is the first failing rule's message, in the order length, uppercase, lowercase, digit, special character. A strong password gets only the mismatch message, and only when the confirmation differs. |
| UserValidation.IndexOf | use-cases/refactor-patterns/javascript/user_validation.js:73 | The first position of a character, or the length when it does not occur. |
| UserValidation.EmailFormatIsPattern | use-cases/refactor-patterns/javascript/user_validation.js:73 | The executable email check accepts exactly the strings matching `^[^\s@]+@[^\s@]+\.[^\s@]+$`. |
| UserValidation.EmailFormatMatches | use-cases/refactor-patterns/javascript/user_validation.js:73 | Every accepted string matches the email pattern. |
| UserValidation.EmailPatternPassesFormat | use-cases/refactor-patterns/javascript/user_validation.js:73 | Every string matching the email pattern is accepted. |
| UserValidation.ValidateEmail | use-cases/refactor-patterns/javascript/user_validation.js:57-81 | A missing or blank email gives "required" on registration and nothing otherwise. Any other email gives no error exactly when it matches and is not registered, "invalid" exactly when it does not match, and "already registered" exactly when it matches and is in use. |
| UserValidation.PhoneFormatIsPattern | use-cases/refactor-patterns/javascript/user_validation.js:154 | The executable phone check accepts exactly `^\+?[\d\s\-()]{10,15}$`. |
| UserValidation.ValidatePhone | use-cases/refactor-patterns/javascript/user_validation.js:148-159 | No error exactly when the phone is absent, empty, or a string matching the pattern. Otherwise the single "invalid" message. |
| UserValidation.UkPostcodeIsPattern | use-cases/refactor-patterns/javascript/user_validation.js:135 | The executable UK check accepts exactly `^[A-Z]{1,2}\d[A-Z\d]? \d[A-Z]{2}$`. |
| UserValidation.PostcodeExamples | use-cases/refactor-patterns/javascript/user_validation.js:132-136 | Sample US, CA and UK postcodes are accepted or rejected as the patterns say. |
| UserValidation.MissingFieldErrors | use-cases/refactor-patterns/javascript/user_validation.js:123-128 | No more messages than field names. No message exactly when no listed field is missing or blank. |
| UserValidation.MissingFieldCount | use-cases/refactor-patterns/javascript/user_validation.js:123-128 | A field's `Address <field> is required` message occurs once for each time the field is listed if it is missing or blank, and never otherwise. |
| UserValidation.MissingFieldOrder | use-cases/refactor-patterns/javascript/user_validation.js:123-128 | Messages follow the order of the field list: of two missing fields, the earlier one is reported first. |
| UserValidation.PostcodeErrors | use-cases/refactor-patterns/javascript/user_validation.js:131-142 | No message exactly when the postcode is not rejected for a known country. |
| UserValidation.AddressErrors | use-cases/refactor-patterns/javascript/user_validation.js:112-145 | No address or an empty string gives no messages. Any other non-object value gives exactly "Address must be an object with required fields". At most five messages. |
| UserValidation.ValidateAddress | use-cases/refactor-patterns/javascript/user_validation.js:112-145 | The loop's messages are exactly `AddressErrors`. |
| UserValidation.MissingFieldReported | use-cases/refactor-patterns/javascript/user_validation.js:124-128 | Every missing required field is reported. |
| UserValidation.AddressFieldReported | use-cases/refactor-patterns/javascript/user_validation.js:124-128 | `Address <field> is required` appears exactly when that field is missing or blank. |
| UserValidation.AddressFieldCount | use-cases/refactor-patterns/javascript/user_validation.js:123-128 | Each of street, city, zip and country is reported exactly once when missing or blank, and not at all otherwise. |
| UserValidation.AddressFieldOrder | use-cases/refactor-patterns/javascript/user_validation.js:123-128 | The missing-field messages come in the order street, city, zip, country. |
| UserValidation.PostcodeMessageLast | use-cases/refactor-patterns/javascript/user_validation.js:130-142 | A rejected postcode gives exactly one `Invalid <country> postal code format`, and it is the last message. |
| UserValidation.PostcodeReported | use-cases/refactor-patterns/javascript/user_validation.js:138-141 | `Invalid <country> postal code format` appears exactly when the postcode is rejected for that country. |
| UserValidation.PostcodeMessageNotMissing | use-cases/refactor-patterns/javascript/user_validation.js:126 | A postcode message is never one of the missing-field messages. |
| UserValidation.CompleteAddressAccepted | use-cases/refactor-patterns/javascript/user_validation.js:112-145 | A complete address with a valid or unchecked postcode gives no messages. |
| UserValidation.RequiredErrors | use-cases/refactor-patterns/javascript/user_validation.js:174-178 | No more messages than fields. None exactly when no required field is missing. |
| UserValidation.EmptyErrors | use-cases/refactor-patterns/javascript/user_validation.js:186-190 | No more messages than fields. None exactly when no profile field is present but blank. |
| UserValidation.RequiredCount | use-cases/refactor-patterns/javascript/user_validation.js:174-178 | A field's required message occurs once for each time the field is listed if it is missing, and never otherwise. |
| UserValidation.EmptyCount | use-cases/refactor-patterns/javascript/user_validation.js:186-190 | A field's "cannot be empty" message occurs once for each time the field is listed if it is present but blank, and never otherwise. |
| UserValidation.CustomErrors | use-cases/refactor-patterns/javascript/user_validation.js:206-218 | At most one message per validation. None exactly when every validation of a present field holds. |
| UserValidation.CheckRequired | use-cases/refactor-patterns/javascript/user_validation.js:174-178 | The loop's messages are exactly `RequiredErrors`. |
| UserValidation.CheckProvidedNotEmpty | use-cases/refactor-patterns/javascript/user_validation.js:186-190 | The loop's messages are exactly `EmptyErrors`. |
| UserValidation.RunCustomValidations | use-cases/refactor-patterns/javascript/user_validation.js:206-218 | The loop's messages are exactly `CustomErrors`. |
| UserValidation.ValidateUserData | use-cases/refactor-patterns/javascript/user_validation.js:163-221 | The result is exactly `UserDataErrors`. That is the TypeError when a validator would call `trim` on an object; otherwise required, mode, email, date-of-birth, address, phone and custom messages, in that order. |
| UserValidation.RequiredReported | use-cases/refactor-patterns/javascript/user_validation.js:174-178 | Every missing required field is reported. |
| UserValidation.EmptyReported | use-cases/refactor-patterns/javascript/user_validation.js:186-190 | Every present-but-blank profile field is reported. |
| UserValidation.MissingUsernameReportedTwice | use-cases/refactor-patterns/javascript/user_validation.js:174-182 | A registration without a username reports "username is required for registration" at least twice. |
| UserValidation.BlankProfileFieldReportedTwice | use-cases/refactor-patterns/javascript/user_validation.js:174-190 | On a profile update, a blank profile field is reported both as required and as empty. |
| UserValidation.ValidRegistrationAccepted | use-cases/refactor-patterns/javascript/user_validation.js:163-221 | A registration whose fields all pass their validators yields no errors. |
| CsvExport.ParseFieldEscaped | use-cases/code-algorithms/javascript/TaskManager/export.js:62-72 | Reading an escaped field back gives the original text, whatever follows at a field boundary. |
| CsvExport.ParseRecordEncoded | use-cases/code-algorithms/javascript/TaskManager/export.js:45 | Reading a comma-joined line of escaped fields gives back the values. |
| CsvExport.ParseFileEncoded | use-cases/code-algorithms/javascript/TaskManager/export.js:48 | Reading newline-joined lines gives back every record. |
| CsvExport.EscapeCsv | use-cases/code-algorithms/javascript/TaskManager/export.js:62-72 | null or undefined becomes the empty field. A string with no comma, quote or newline is returned unchanged. Any string becomes a field that reads back as that string. |
| CsvExport.GetPriorityName | use-cases/code-algorithms/javascript/TaskManager/export.js:95-103 | The result is UNKNOWN exactly for values outside 1..4. |
| CsvExport.PriorityNameRoundTrip | use-cases/code-algorithms/javascript/TaskManager/export.js:95-103 | For 1..4 the name maps back to the number; otherwise to nothing. |
| CsvExport.PriorityNamePlain | use-cases/code-algorithms/javascript/TaskManager/export.js:37 | A priority name never needs quoting, so writing it unescaped is safe. |
| CsvExport.RowLines | use-cases/code-algorithms/javascript/TaskManager/export.js:32-46 | One row per task, in task order. |
| CsvExport.TaskRows | use-cases/code-algorithms/javascript/TaskManager/export.js:32-46 | The `forEach` loop builds exactly `RowLines`. |
| CsvExport.ExportToCsv | use-cases/code-algorithms/javascript/TaskManager/export.js:17-55 | Success exactly when the listed tasks are non-empty. The written text is the header line followed by one row per task. |
| CsvExport.RowLineEncodes | use-cases/code-algorithms/javascript/TaskManager/export.js:33-45 | A row is the CSV encoding of the task's ten cell values; tags are joined with `;`. |
| CsvExport.HeadersPlain | use-cases/code-algorithms/javascript/TaskManager/export.js:27 | No column name needs quoting. |
| CsvExport.ExportReadsBack | use-cases/code-algorithms/javascript/TaskManager/export.js:27-48 | Parsing the exported file gives the header followed by each task's cell values. |
| CsvExport.ReadsBackWith | use-cases/code-algorithms/javascript/TaskManager/export.js:27-48 | The same round trip for any header of plain column names. |
| ProductApi.Select | use-cases/API-Documentation-Task/product-api.js:56 | The filtered list holds exactly the accepted elements of the input. |
| ProductApi.SelectTwice | use-cases/API-Documentation-Task/product-api.js:55-74 | Two successive filters equal one filter by both conditions. |
| ProductApi.Find | use-cases/API-Documentation-Task/product-api.js:51-77 | `find` returns only catalogue products satisfying every condition the filter sets, and all of them. |
| ProductApi.FindIsConjunction | use-cases/API-Documentation-Task/product-api.js:51-77 | `find` is exactly the catalogue filtered by the conjunction of the conditions, in catalogue order. |
| ProductApi.FindWithoutFilter | use-cases/API-Documentation-Task/product-api.js:51-52 | An empty filter returns the whole catalogue. |
| ProductApi.FindById | use-cases/API-Documentation-Task/product-api.js:79-82 | The result is the first product with that id, or null exactly when none has it. |
| ProductApi.CountDocuments | use-cases/API-Documentation-Task/product-api.js:84-86 | The count is at most the catalogue size. It is 0 exactly when no product matches. |
| ProductApi.CountIsMatches | use-cases/API-Documentation-Task/product-api.js:84-86 | The count is the number of matching products. |
| ProductApi.BuildFilter | use-cases/API-Documentation-Task/product-api.js:104-118 | The price condition is set exactly when minPrice or maxPrice is given. The stock condition is set exactly when `inStock` is `'true'`. The category condition is set exactly for a non-empty category. |
| ProductApi.BuiltFilterMeaning | use-cases/API-Documentation-Task/product-api.js:104-118 | A product passes the built filter exactly when it has the category, lies within the price bounds, and is in stock if asked. |
| ProductApi.TextBeforeTransitive | use-cases/API-Documentation-Task/product-api.js:135-137 | String `<` is transitive. |
| ProductApi.TextBeforeTotal | use-cases/API-Documentation-Task/product-api.js:135-137 | Of two different strings, one is `<` the other. |
| ProductApi.AheadIsStrictWeakOrder | use-cases/API-Documentation-Task/product-api.js:131-138 | For every field and order, the comparator's "goes first" relation is a strict weak order. |
| ProductApi.SortProducts | use-cases/API-Documentation-Task/product-api.js:131-138 | The sorted list is a permutation of the input, and no element goes ahead of an element placed before it. |
| ProductApi.PriceAscending | use-cases/API-Documentation-Task/tests/product-api.test.js:72-81 | Sorted by price ascending, prices never decrease. |
| ProductApi.PriceDescending | use-cases/API-Documentation-Task/tests/product-api.test.js:83-92 | Sorted by price in the default order, prices never increase. |
| ProductApi.TextAscending | use-cases/API-Documentation-Task/product-api.js:131-138 | Sorted by a text field ascending, no value is `<` an earlier one. |
| ProductApi.JsSlice | use-cases/API-Documentation-Task/product-api.js:141 | `slice` returns the elements from the normalised start up to the normalised end. When start ≤ end, its length is at most end - start. |
| ProductApi.SliceOrdered | use-cases/API-Documentation-Task/product-api.js:141 | A slice of a sorted list is sorted and holds only its elements. |
| ProductApi.CeilDiv | use-cases/API-Documentation-Task/product-api.js:152 | `Math.ceil(a / b)` for either sign of b: the least integer r with a ≤ r·b (for b > 0). |
| ProductApi.SortedMatches | use-cases/API-Documentation-Task/product-api.js:128-138 | The matching products, sorted as the query asks; their number is `countDocuments`. |
| ProductApi.PageCount | use-cases/API-Documentation-Task/product-api.js:152 | `pages` is missing (null in JSON) exactly for limit 0. Otherwise it is the ceiling of total/limit. |
| ProductApi.ListProducts | use-cases/API-Documentation-Task/product-api.js:90-154 | Every listed product is in the catalogue and passes the filter. The page is sorted and has at most `limit` items. `total` is the number of matches. |
| ProductApi.PageWindow | use-cases/API-Documentation-Task/product-api.js:121-141 | From page 1 on, the page is the sorted matches from `(page-1)*limit` up to `page*limit`, cut at the end. |
| ProductApi.PagesHoldAll | use-cases/API-Documentation-Task/product-api.js:152 | For a positive limit, (pages-1)·limit < total ≤ pages·limit. |
| ProductApi.PastLastPageIsEmpty | use-cases/API-Documentation-Task/product-api.js:121-152 | A page number beyond `pages` gives an empty page. |
| ProductApi.DefaultListingShowsAll | use-cases/API-Documentation-Task/tests/product-api.test.js:11-19 | With no parameters and at most 20 products, every product is listed and `total` equals the number listed. |
| ProductApi.CatalogueListing | use-cases/API-Documentation-Task/tests/product-api.test.js:11-19 | The catalogue lists its 4 products on 1 page. |
| ProductApi.ElectronicsExample | use-cases/API-Documentation-Task/tests/product-api.test.js:21-29 | `category=electronics` gives the headphones and the speaker. |
| Shipping.ExpressRateAboveStandard | use-cases/refactor-patterns/javascript/shipping_calculator.js:19-50 | To every destination, the express rate is at least the standard rate + 2. |
| Shipping.UnlistedCountryPaysDefault | use-cases/refactor-patterns/javascript/shipping_calculator.js:26 | Outside USA, Canada and Mexico the rates are 4.5 and 7.5. |
| Shipping.StandardCost | use-cases/refactor-patterns/javascript/shipping_calculator.js:14-36 | Cost is weight × rate, plus 5.0 exactly when weight < 2 and volume > 1000. It is non-negative for non-negative weight. |
| Shipping.ExpressCost | use-cases/refactor-patterns/javascript/shipping_calculator.js:39-60 | Cost is weight × rate, plus 15.0 exactly when volume > 5000. It is non-negative for non-negative weight. |
| Shipping.OvernightCost | use-cases/refactor-patterns/javascript/shipping_calculator.js:63-79 | Overnight is available exactly for USA and Canada, at weight × 9.5 or 12.5. |
| Shipping.StrategyCost | use-cases/refactor-patterns/javascript/shipping_calculator.js:8-79 | Only overnight to a destination other than USA or Canada yields null. |
| Shipping.ExpressNotCheaperFromTwoKilograms | use-cases/refactor-patterns/javascript/shipping_calculator.js:27-56 | From 2 kg up, express never costs less than standard. |
| Shipping.LightBulkyPackageExpressCheaper | use-cases/refactor-patterns/javascript/shipping_calculator.js:30-32 | A 1 kg package of volume 2000 costs 7.5 standard but 4.5 express to the USA. |
| Shipping.StandardDropsAtTwoKilograms | use-cases/refactor-patterns/javascript/shipping_calculator.js:30-32 | A 1.5 kg bulky package costs more by standard than a 2 kg one. |
| Shipping.QuoteFor | use-cases/refactor-patterns/javascript/shipping_calculator.js:91-99 | The result is the not-available message exactly when the strategy yields null. Otherwise it is the strategy's cost. |
| Shipping.ShippingCalculator.constructor | use-cases/refactor-patterns/javascript/shipping_calculator.js:83-85 | The new calculator holds the given strategy. |
| Shipping.ShippingCalculator.SetStrategy | use-cases/refactor-patterns/javascript/shipping_calculator.js:87-89 | The calculator now holds the new strategy. |
| Shipping.ShippingCalculator.Calculate | use-cases/refactor-patterns/javascript/shipping_calculator.js:91-99 | It prices with the strategy currently held. |
| Shipping.SwitchStrategy | use-cases/refactor-patterns/javascript/shipping_calculator.js:83-99 | After `setStrategy`, the same calculator prices with the new strategy. |
| Shipping.CreateShippingStrategy | use-cases/refactor-patterns/javascript/shipping_calculator.js:103-116 | Only standard, express and overnight succeed, each giving its own strategy. Any other name gives `Unknown shipping method: <name>`. |
| Shipping.CalculateShippingCost | use-cases/refactor-patterns/javascript/shipping_calculator.js:119-123 | An unknown method fails with the factory's message. Otherwise the result is the chosen strategy's quote. |
| Shipping.FiveKilogramBoxQuotes | use-cases/refactor-patterns/javascript/shipping_calculator.js:136-140 | A 5 kg 10×10×10 box costs 12.5 USA standard, 27.5 Canada express, 62.5 Canada overnight, and is not available for UK overnight. |
| UserStatistics.Average | use-cases/refactor-patterns/javascript/user_statistics.js:7-11 | The average is 0 for no records. Average × count equals the sum of the property. |
| UserStatistics.MaxFrom | use-cases/refactor-patterns/javascript/user_statistics.js:16 | The fold's result is at least the seed and at least every value. It is the seed or one of the values. |
| UserStatistics.Highest | use-cases/refactor-patterns/javascript/user_statistics.js:14-17 | The highest is 0 for no records. Otherwise it is a value present in the data and at least every value, negative data included. |
| UserStatistics.NegativeHighest | use-cases/refactor-patterns/javascript/user_statistics.js:16 | With ages -5 and -3 the highest is -3, not 0. |
| UserStatistics.StatsOf | use-cases/refactor-patterns/javascript/user_statistics.js:48-53 | Null or empty input gives average 0 and highest 0. |
| UserStatistics.CalculateUserStatistics | use-cases/refactor-patterns/javascript/user_statistics.js:20-44 | Null or empty input gives zeros for age, income and score. Otherwise each is that property's average and highest. |
| UserStatistics.CalculateStatistics | use-cases/refactor-patterns/javascript/user_statistics.js:47-64 | The result has exactly one key per requested property, each holding that property's statistics. |
| UserStatistics.StatisticsEntries | use-cases/refactor-patterns/javascript/user_statistics.js:56-63 | A map with exactly those keys and values is the result object. |
| UserStatistics.EmptyStatistics | use-cases/refactor-patterns/javascript/user_statistics.js:48-53 | Null or empty input gives zeros for every requested property. |
| UserStatistics.CalculateUserStatisticsGeneric | use-cases/refactor-patterns/javascript/user_statistics.js:67-69 | The generic call has keys age, income and score, each equal to the specific function's entry. |
| UserStatistics.GenericAgrees | use-cases/refactor-patterns/javascript/user_statistics.js:20-69 | For every input, the generic and the specific statistics agree. |

## Left out

- Task scoring: the implementation of `calculateTaskScore`, `sortTasksByImportance` and `getTopPriorityTasks` is not part of this model. Their behaviour is taken from the Jest assertions. Dates are whole day numbers, and "now" is the day passed in.
- TaskPriority.SortByImportance: the order of tasks with equal scores is not fixed by the tests. The model keeps input order (a stable sort).
- TaskPriority.DueDateBonus: the tests fix only -1, 0, +1 and +7 days. The model's bonus for more than one day overdue (30), for 2 to 6 days (10) and beyond 7 days (0) is its own choice; `DueDateTiers` (eight days out) and `DueDateBonusDecreasesWithDistance` rest on it.
- TaskPriority.StatusModifier: the tests fix TODO, DONE and REVIEW. IN_PROGRESS and other statuses get 0 by the model's choice; `PlainTaskScoresItsPriority` uses that for IN_PROGRESS.
- TaskPriority.TagBoost: the tests score only tasks with one tag. That several alarm tags add a flat 8 is the model's choice; `BoostDoesNotStack` states it.
- TaskPriority.TopPriority: a negative limit is not modelled; the limit is a natural number.
- TaskPriority.TopThreeScenario: it states the three names in order, not the full task records.
- Inventory: item ids are wrapped in a one-field datatype. The "not available" `console.log` is left out.
- Inventory.ProcessInventory: the inventory is an array of record values. In the source the entries are shared objects, so one object placed at two indices would be decremented at both; that aliasing is not captured.
- Inventory: `quantityOrdered` is an unbounded integer, and prices are exact reals rather than floating point.
- UserValidation: `validateDateOfBirth` (which reads the clock) is not modelled. Its messages are a parameter of `ValidateUserData`.
- UserValidation: the `checkExisting` callbacks are sets of taken usernames and emails. Custom validators are total function values.
- UserValidation: values other than strings and plain objects are not modelled, such as numbers, booleans, `null` and arrays. A throwing `trim` on an object is the error result `TypeError`.
- UserValidation: string lengths count characters, not UTF-16 code units. Inherited object keys (a country named `constructor`) are not modelled.
- CsvExport: `formatDate` is modelled as the stored date text, or empty when absent. `new Date(...).toISOString()` is not part of this model.
- CsvExport: file writing, the `try`/`catch` around it and the console messages are left out. The task list is the result of a `listTasks` function parameter.
- CsvExport: the read-back lemma assumes dates that need no quoting. Rows are separated by LF, as the source writes them.
- ProductApi: the handler's HTTP plumbing, its `try`/`catch`, the 500 response and the `Promise` wrappers are left out. `parseInt`/`parseFloat` results, including `NaN`, are not modelled; parameters arrive as parsed numbers.
- ProductApi.SortProducts: the source sorts in place with a comparator that never returns 0, so the order of equal keys depends on the engine. The model sorts a copy stably and states sortedness only. Strings compare by code point rather than by UTF-16 unit.
- ProductApi.ListProducts: `pages` for a zero limit (`Infinity` or `NaN`, serialised as null) is `None`.
- Shipping: `toFixed(2)` formatting is left out. `Calculate` returns the exact cost, not a two-decimal string.
- Shipping: the abstract `ShippingStrategy.calculate` that throws is not modelled. Only the three concrete strategies exist. Inherited object keys used as method or country names are not modelled.
- Shipping: the example `console.log` calls are expressed as the lemma `FiveKilogramBoxQuotes`.
- UserStatistics: every record must carry the requested numeric properties. A missing property (which gives `NaN` in JavaScript) is not modelled. Averages are exact reals.
