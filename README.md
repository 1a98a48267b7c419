# Capitalflow loan portal — a verified model of its core

Capitalflow is a commercial-lending portal. A borrower signs in, sees a dashboard of their deals
(lines of credit, equipment finance and term loans), browses and sorts their products, filters
their transactions and monthly statements, estimates the savings of a prepayment, applies for a
new product through a four-step form, and edits their settings. This project models the logic
behind those pages in Dafny and proves what the code promises about it:

- **Loan arithmetic** (`utils.dfy`):
  - the annuity payment and the total interest;
  - the payment's scaling and additivity in the principal;
  - a proof that the payment amortises the loan;
  - the label and colour maps and `truncateText`.
- **Dashboard metrics** (`dashboard.dfy`): the active-deal totals and the three upcoming
  payments. One stable sort serves both the dashboard and the products page (`sorting.dfy`).
  `SortInPlace` is the in-place array version of that sort.
- **Products page** (`products.dfy`): filtering by status and product, sorting by five keys, the
  active-first partition and the summary cards.
- **Transactions page** (`transactions.dfy`): the four filters, and the inflow and outflow
  summary with its sign rule.
- **Statements page** (`statements.dfy`):
  - the month, year and search filters;
  - the summary;
  - the year list;
  - the month names.
- **The seed script's statement rollup** (`rollup.dfy`): the twelve monthly statements built
  from the transactions.
- **Prepayment page** (`prepayment.dfy`): loading the active deals, the savings estimate, and
  the submit and reset flow. The page shows the estimate as the code computes it; the intended
  estimate is defined beside it (see "## Findings").
- **Application form** (`application.dfy`): the product catalogue, the default product, the term
  options, the validation schema and the step wizard.
- **Settings page** (`settings.dfy`): the initial profile and preferences, the single-field
  edits, and the password-change guards.
- **Route protection** (`middleware.dfy`): the paths the middleware runs on, and who it admits.

The shared pieces are:

- `seqs.dfy`: filters, sums, subsequences and de-duplication, as used by `Array.prototype.filter`,
  `reduce` and `new Set`;
- `text.dfy`: `toLowerCase`, `includes`, `toString` and `parseInt`;
- `deals.dfy`: the `Deal` record and the seed deals;
- `wrappers.dfy`: `Option` and `Result`.

Modelling conventions:

- Money is an exact `real`, and dates are integers (milliseconds since the epoch).
- A toast is the `Result<string>` a handler returns.
- A React state hook is a field of a class whose methods are the event handlers.
- Where the code reassigns a local array through a chain of filters, the model is a method with
  the same steps, proved equal to a single filter by a reference predicate.

## Model

| member | source | states |
|---|---|---|
| Utils.LoanPayment | app/lib/utils.ts:40-52 | at a zero monthly rate the payment is principal / term; otherwise payment times the geometric sum of (1+i) equals principal times (1+i)^n, the annuity equation |
| Utils.ZeroRateRepaysPrincipal | app/lib/utils.ts:45-46 | at rate 0 the payments add up to the principal exactly and the total interest is 0 |
| Utils.PaymentAmortizes | app/lib/utils.ts:45-51 | paying the computed amount monthly while the balance accrues interest at i leaves a balance of exactly 0 after n months |
| Utils.TotalInterestIsScheduleInterest | app/lib/utils.ts:54-60 | monthlyPayment*termMonths - principal equals the interest actually charged month by month on the amortising balance |
| Utils.PaymentExceedsPrincipal | app/lib/utils.ts:45-51 | for principal > 0 and rate > 0 the payments exceed the principal and the total interest is positive |
| Utils.PaymentScales | app/lib/utils.ts:48-51 | the payment is linear in the principal: payment(c*P) == c*payment(P) |
| Utils.PaymentAdditive | app/lib/utils.ts:48-51 | payment(a+b) == payment(a) + payment(b) |
| Utils.TotalInterestNonNegative | app/lib/utils.ts:45-60 | a non-negative principal at a non-negative rate never has negative total interest |
| Utils.BalanceClosedForm | app/lib/utils.ts:48-51 | the balance after k payments is P(1+i)^k - M times the geometric sum of (1+i) over k terms |
| Utils.InterestChargedTelescopes | app/lib/utils.ts:59 | the interest charged over k months is M*k - P plus the balance left |
| Utils.ProductTypeLabel | app/lib/utils.ts:69-80 | the three codes map to their labels, and any other input is returned unchanged, in both directions |
| Utils.ProductTypeLabelIdempotent | app/lib/utils.ts:69-80 | labelling a label changes nothing |
| Utils.DealStatusColor | app/lib/utils.ts:82-97 | the function is total over five colours; secondary iff CLOSED or unknown; the four other statuses map to their colours |
| Utils.TransactionTypeColor | app/lib/utils.ts:99-114 | green iff DISBURSEMENT or REFUND; gray iff the type is not among the five listed; PAYMENT, FEE and INTEREST get red, orange and blue |
| Utils.TruncateText | app/lib/utils.ts:127-130 | text of at most maxLength characters is unchanged; longer text is its first max(maxLength, 0) characters plus "...", of length max(maxLength, 0)+3 |
| Deals.StatusCodeInjective | app/scripts/seed.ts:42-162 | distinct statuses have distinct codes, so comparing code strings compares statuses |
| Deals.ProductCodeInjective | app/scripts/seed.ts:42-162 | distinct product types have distinct codes |
| Dashboard.GetDashboard | app/app/api/dashboard/route.ts:13-18 | the result is Unauthorized exactly when the user id is missing or empty, and the metrics otherwise |
| Dashboard.Metrics | app/app/api/dashboard/route.ts:52-61 | the active count is at most the number of deals, and there are at most 3 upcoming payments, no more than the active deals |
| Dashboard.TotalsCountActiveOnly | app/app/api/dashboard/route.ts:52-55 | the balance, credit and payment totals are sums over the ACTIVE deals only, a null payment counting 0, and the count is the number of ACTIVE deals |
| Dashboard.UpcomingAreActiveDated | app/app/api/dashboard/route.ts:58-61 | at most 3 upcoming payments, each an input deal that is ACTIVE with a next payment date |
| Dashboard.UpcomingAscending | app/app/api/dashboard/route.ts:60 | the upcoming payments are in ascending order of next payment date |
| Dashboard.UpcomingEarliest | app/app/api/dashboard/route.ts:58-61 | an active dated deal left out is no earlier than any chosen one, and then exactly 3 were chosen |
| Dashboard.UpcomingStable | app/app/api/dashboard/route.ts:60 | deals with the same date keep their input order |
| Dashboard.EmptyDashboard | app/app/api/dashboard/route.ts:52-61 | no deals give zero sums, a zero count and no upcoming payments |
| Dashboard.SeedDashboard | app/app/api/dashboard/route.ts:52-61 | on the seed deals: balance 1,080,000, credit 1,370,000, 5 active deals, upcoming payments CF240003, CF240001, CF240002 |
| Sorting.SortPermutes | app/components/products/products-page.tsx:95-110 | the stable sort is a permutation of its input |
| Sorting.SortSorted | app/components/products/products-page.tsx:95-110 | the stable sort orders its output by the key |
| Sorting.SortStable | app/components/products/products-page.tsx:95-110 | for every key value, the elements with that key keep their input order |
| Sorting.SortConstantKey | app/components/products/products-page.tsx:107-108 | a comparator that always returns 0 leaves the order unchanged |
| Sorting.SortInPlace | app/components/products/products-page.tsx:95 | the in-place insertion sort of the array leaves in it exactly the functional stable sort of its old contents |
| Products.FilterAndSortDeals | app/components/products/products-page.tsx:82-117 | the result is the filter, stable sort and active-first partition of the array's contents; the method sorts its own copy and modifies nothing |
| Products.ResultMatchesFilters | app/components/products/products-page.tsx:86-92 | every listed deal has the chosen status and product unless that filter is "all" |
| Products.ResultPermutesFiltered | app/components/products/products-page.tsx:83-92 | the list is a permutation of the filtered deals, and with both filters "all" a permutation of all deals |
| Products.ActiveBeforeOthers | app/components/products/products-page.tsx:113-116 | every ACTIVE deal precedes every other deal, whatever the sort key |
| Products.GroupsSorted | app/components/products/products-page.tsx:95-116 | within the active part and within the rest, the order follows the sort key |
| Products.SortKeyMeaning | app/components/products/products-page.tsx:96-109 | principal, balance, rate and origination date sort descending, and maturity date ascending; an unknown key compares everything equal |
| Products.UnknownSortKeepsOrder | app/components/products/products-page.tsx:107-116 | with an unknown sortBy the list is the filtered deals in input order, active ones first |
| Products.SeedByMaturity | app/components/products/products-page.tsx:105-116 | the seed deals by maturity date are CF240004, CF240003, CF240002, CF240005, CF240001, then the PAID_OFF and CLOSED deals |
| Products.SummaryActiveParts | app/components/products/products-page.tsx:203-251 | the LOC count covers all statuses but its available total only ACTIVE lines; the equipment total covers all statuses, and is its ACTIVE part plus the rest; the term outstanding covers ACTIVE term loans |
| Transactions.FilterTransactions | app/components/transactions/transactions-page.tsx:119-149 | the four conditional filters, applied one after the other, give the single filter by the reference predicate `Shown` |
| Transactions.ListedIff | app/components/transactions/transactions-page.tsx:119-148 | the list is a subsequence of the input, and a transaction is listed iff it is in the input and passes every control that is set |
| Transactions.ListedWithinRange | app/components/transactions/transactions-page.tsx:123-127 | with a day range, every listed transaction is dated no earlier than now - days*86400000 |
| Transactions.UnparsableRangeListsNothing | app/components/transactions/transactions-page.tsx:124-126 | a range that parseInt cannot read (NaN) lists no transaction |
| Transactions.NoControlsListsAll | app/components/transactions/transactions-page.tsx:119-148 | with every control at "all" and no search, every transaction is listed, in order |
| Transactions.EmptyTermMatchesAll | app/components/transactions/transactions-page.tsx:140 | the empty search term matches every transaction |
| Transactions.SearchIgnoresTermCase | app/components/transactions/transactions-page.tsx:142-144 | searching for a term and for its lower-case form match the same transactions |
| Text.IncludesIff | app/components/transactions/transactions-page.tsx:142-144 | `includes` holds iff the needle occurs at some position of the text |
| Transactions.Summary | app/components/transactions/transactions-page.tsx:168-180 | an empty list gives zero inflow, outflow and net |
| Transactions.SummaryConserves | app/components/transactions/transactions-page.tsx:168-177 | inflow plus outflow plus the amounts of all other types equals the sum of all amounts |
| Transactions.SummaryBounds | app/components/transactions/transactions-page.tsx:168-177 | with non-negative amounts both totals are non-negative and the net lies between -outflow and inflow |
| Transactions.NetIsSignedSum | app/components/transactions/transactions-page.tsx:168-180 | the net flow is the sum of the displayed signed amounts ('-', as line 407 prints it, exactly for PAYMENT, FEE, INTEREST and PRINCIPAL) over the counted types |
| Transactions.GreenIsInflow | app/lib/utils.ts:99-114 | a transaction is shown green iff it counts towards inflow |
| Statements.FilterStatements | app/components/statements/statements-page.tsx:112-131 | the three conditional filters give the single filter by `StatementShown` |
| Statements.StatementListedIff | app/components/statements/statements-page.tsx:112-130 | the list is a subsequence of the input, and a statement is listed iff it passes every control that is set |
| Statements.ChosenMonthAndYear | app/components/statements/statements-page.tsx:115-121 | choosing the drop-down values of month m and year y lists exactly the statements of that month and year |
| Text.ParseIntToString | app/components/statements/statements-page.tsx:116-120 | parseInt reads back the decimal text of every integer |
| Statements.NothingChosenListsAll | app/components/statements/statements-page.tsx:115-121 | an empty or "all" month and year with no search lists every statement |
| Statements.UnparsableMonthListsNothing | app/components/statements/statements-page.tsx:115-116 | a chosen month that parses to NaN lists nothing |
| Statements.Summary | app/components/statements/statements-page.tsx:146-152 | an empty list gives a zero summary |
| Statements.SummaryNetIsSumOfNets | app/components/statements/statements-page.tsx:146-151 | when each statement's net is its credits minus debits, the summary net is the sum of the nets |
| Statements.SummaryAppend | app/components/statements/statements-page.tsx:146-151 | the totals over two consecutive parts of the list add up |
| Statements.AvailableYearsSpec | app/components/statements/statements-page.tsx:141-144 | the years are strictly descending, each comes from a statement, and every statement's year is present |
| Statements.MonthName | app/components/statements/statements-page.tsx:133-139 | a name exists iff the month is in 1..12; 1 is January and 12 is December |
| Statements.MonthNameInjective | app/components/statements/statements-page.tsx:134-138 | different months have different names |
| Rollup.StatementRollup | app/scripts/seed.ts:288-317 | exactly 12 statements; statement i is the rollup of the month i months back; every net is credits minus debits |
| Rollup.MonthsBack | app/scripts/seed.ts:289-291 | the month is in 1..12, and year*12 + month - 1 steps back by exactly `back` months, wrapping the year past January |
| Rollup.MonthsBackDistinct | app/scripts/seed.ts:288-291 | different steps give different months |
| Rollup.RollupMonths | app/scripts/seed.ts:289-291 | statement i is for the month i months before the current one |
| Rollup.MonthConserves | app/scripts/seed.ts:294-305 | a month's credits plus debits plus its uncounted amounts equal the sum over that month's transactions |
| Rollup.IgnoredTransaction | app/scripts/seed.ts:294-305 | a transaction of another month, or of a type on neither list (TRANSFER), does not change the month's statement |
| Rollup.CreditRaisesNet | app/scripts/seed.ts:299-314 | a credit in the month raises its credits and its net by its amount and leaves its debits alone |
| Prepayment.Ceil | app/components/prepayment/prepayment-page.tsx:139 | `Math.ceil`: the least integer not below x |
| Prepayment.RemainingTermMonths | app/components/prepayment/prepayment-page.tsx:139 | the fewest payments of M that cover B: (T-1)*M < B <= T*M, and T >= 1 |
| Prepayment.EstimateFields | app/components/prepayment/prepayment-page.tsx:142-155 | the estimate carries the amount and balance; newBalance is B - amount exactly; the new payment is calculateLoanPayment(newBalance, rate, T); total savings equal interest savings |
| Prepayment.AsWrittenBaselineIsSlack | app/components/prepayment/prepayment-page.tsx:139-140 | the code's interest without prepayment, M*T - B, lies in [0, M) |
| Prepayment.AsWrittenZeroRate | app/components/prepayment/prepayment-page.tsx:143-146 | at a zero rate the code's new interest is 0 and its savings equal M*T - B |
| Prepayment.AsWrittenSavingsBelowOnePayment | app/components/prepayment/prepayment-page.tsx:140-146 | at a non-negative rate, with amount <= balance, the code reports savings below one monthly payment |
| Prepayment.AsWrittenNegativeSavings | app/components/prepayment/prepayment-page.tsx:140-146 | for B=1000, rate 12%, M=1000 and 500 prepaid the code reports savings of -5, where the corrected estimate gives +5 |
| Prepayment.CorrectedSavingsIsInterestOnAmount | app/components/prepayment/prepayment-page.tsx:139-146 | the corrected saving is the interest the prepaid amount would cost over the remaining term |
| Prepayment.CorrectedSavingsNonNegative | app/components/prepayment/prepayment-page.tsx:139-146 | the corrected saving is never negative for a non-negative amount and rate, and is positive when both are positive |
| Prepayment.CorrectedZeroRate | app/components/prepayment/prepayment-page.tsx:143-146 | at a zero rate the corrected saving is 0 |
| Prepayment.FindDeal | app/components/prepayment/prepayment-page.tsx:131 | `find` fails iff no row has the id; otherwise it returns the first row with it |
| Prepayment.PrepaymentPage.FetchData | app/components/prepayment/prepayment-page.tsx:70-86 | an OK response replaces the list by the ACTIVE rows of `data.deals` (none when absent), and a failure keeps it; loading ends |
| Prepayment.PrepaymentPage.CalculatePrepayment | app/components/prepayment/prepayment-page.tsx:125-162 | an empty deal or amount changes nothing; past that guard calculating ends false, and the estimate changes only when the deal is found, to `EstimateOf` of that deal: the code's own (as-written) estimate |
| Prepayment.ShownSavingsBelowOnePayment | app/components/prepayment/prepayment-page.tsx:131-155 | the page shows an estimate iff the found deal is estimable, and at a non-negative rate with amount <= balance the saving it shows stays below one monthly payment |
| Prepayment.PrepaymentPage.SubmitPrepayment | app/components/prepayment/prepayment-page.tsx:164-177 | a missing field or estimate reports "Please complete all fields" and changes nothing; otherwise success, and the deal, amount and estimate are cleared |
| Prepayment.FoundRowIsActive | app/components/prepayment/prepayment-page.tsx:75-131 | the deal an estimate is computed for is ACTIVE |
| Prepayment.StatusColor | app/components/prepayment/prepayment-page.tsx:202-215 | warning iff PENDING, success iff APPROVED or COMPLETED, destructive iff REJECTED, otherwise secondary |
| Application.FindProduct | app/components/applications/application-form.tsx:122 | `find` fails iff no offer has the code; otherwise it returns the first offer with that code |
| Application.TermOptionsOfEachProduct | app/components/applications/application-form.tsx:71-99 | the term options are exactly the selected product's terms, and none iff the product is not in the catalogue |
| Application.DefaultProductType | app/components/applications/application-form.tsx:117 | the default is the initial product when non-empty, and LINE_OF_CREDIT otherwise |
| Application.SchemaAccepts | app/components/applications/application-form.tsx:36-61 | no rule fails iff the product is one of three, the e-mail passes, and the minimum lengths of 10, 5, 2 and 1 hold on their fields |
| Application.RuleMeanings | app/components/applications/application-form.tsx:37-56 | what each rule of the schema requires of its field |
| Application.FailingEmptyIff | app/components/applications/application-form.tsx:36-61 | the form is accepted iff every rule holds |
| Application.ShortPurposeRefused | app/components/applications/application-form.tsx:39 | a purpose under 10 characters fails with "Please provide more details about the purpose" |
| Application.RunStaysInRange | app/components/applications/application-form.tsx:152-170 | from a step in 1..4, any sequence of Next, Previous and Close stays in 1..4 |
| Application.RunAdvancesByNexts | app/components/applications/application-form.tsx:160-170 | each press of Next advances at most one step, and no other press advances |
| Application.SubmitStepNeedsThreeNexts | app/components/applications/application-form.tsx:160-164 | reaching the submit step from step 1 takes at least three presses of Next |
| Application.ButtonsMatchSteps | app/components/applications/application-form.tsx:702-707 | Previous is disabled exactly where it would do nothing, and Submit replaces Next exactly where Next would do nothing |
| Application.ApplicationWizard.NextStep | app/components/applications/application-form.tsx:160-164 | the step increases only below 4, and nothing else changes |
| Application.ApplicationWizard.PrevStep | app/components/applications/application-form.tsx:166-170 | the step decreases only above 1, and nothing else changes |
| Application.ApplicationWizard.CloseForm | app/components/applications/application-form.tsx:152-158 | back to step 1, submitSuccess false, application number empty |
| Application.ApplicationWizard.Submit | app/components/applications/application-form.tsx:124-150 | a created application keeps its number and shows success; a refusal reports the server message or "Failed to submit application"; a failed request reports an error; submitting ends |
| Settings.OrElse | app/components/settings/settings-page.tsx:64-68 | `value \|\| fallback`: a non-empty value is kept, otherwise the fallback |
| Settings.InitialProfileDefaults | app/components/settings/settings-page.tsx:63-71 | with no session every text is empty and the role is "user"; with one, id, name, email and companyName are the session's values or "" when missing, and the role is the session's non-empty role or "user"; industry and phone start empty |
| Settings.SettingsPage.constructor | app/components/settings/settings-page.tsx:63-84 | an empty password form, every channel on with frequency "immediate", and the profile from the session |
| Settings.EditProfileChangesOneField | app/components/settings/settings-page.tsx:163-196 | each profile edit (these four fields and the company name at line 448) sets its field and keeps every other field, id and role included |
| Settings.EditProfileRestores | app/components/settings/settings-page.tsx:163-196 | editing a field back to its old value restores the profile |
| Settings.EditPasswordChangesOneField | app/components/settings/settings-page.tsx:245-292 | each password-field edit sets its field and keeps the other two |
| Settings.EditNotificationsChangesOneField | app/components/settings/settings-page.tsx:375-406 | each switch or the frequency drop-down changes exactly its own preference |
| Settings.EditNotificationsIdempotent | app/components/settings/settings-page.tsx:375-406 | applying the same edit twice is applying it once |
| Settings.PasswordRejectionSpec | app/components/settings/settings-page.tsx:107-115 | accepted iff the new entries agree and have at least 8 characters; a mismatch is reported first, even for a short password |
| Settings.SettingsPage.ChangePassword | app/components/settings/settings-page.tsx:106-128 | a rejection reports its message and leaves the form and loading untouched; success resets the form to three empty strings and ends with loading false |
| Settings.SettingsPage.SaveProfile | app/components/settings/settings-page.tsx:93-104 | reports success, changes no field, and loading ends false |
| Settings.SettingsPage.SaveNotifications | app/components/settings/settings-page.tsx:130-141 | reports success, changes no field, and loading ends false |
| Middleware.AuthorizedSpec | app/middleware.ts:12-23 | "/" is authorised with or without a token; any other path iff a token is present |
| Middleware.LiteralPatternPrefix | app/middleware.ts:39 | an alternative without '.' matches exactly the paths it starts |
| Middleware.PublicityNotMatched | app/middleware.ts:39 | "/publicity" starts with "public" and is skipped |
| Middleware.FaviconWildcard | app/middleware.ts:39 | the '.' of favicon.ico is a wildcard, so "/faviconXico" is skipped as well as "/favicon.ico" |
| Middleware.LineTerminatorNotMatched | app/middleware.ts:39 | a path with a line feed, carriage return or line or paragraph separator after its '/' is not matched, and the wildcard '.' of favicon.ico does not stand for one |
| Middleware.AuthRoutesAdmitted | app/middleware.ts:39 | every path under "/api/auth" is admitted without a token |
| Middleware.DashboardGuarded | app/middleware.ts:14-39 | "/dashboard" and "/api/dashboard" are matched and admitted iff a token is present |
| Middleware.RootAdmitted | app/middleware.ts:14-19 | the root is always admitted |

## Left out

- Rendering, animation, icons and layout in every page. The financial-education, main-dashboard,
  layout and toaster components are UI only.
- `formatCurrency`, `formatDate`, `formatDateTime` and `formatPercent`: locale and floating-point
  formatting.
- `debounce`: timers and closure state.
- `generateDealNumber`, the application number and the mock-data generators of the prepayment,
  transactions and statements pages: they use the clock and randomness. The seed's random payment
  counts and fees are left out for the same reason.
- `Date.now()` of the transactions page's date filter is the parameter `now` of
  `Transactions.FilterTransactions`, `Transactions.Shown` and `Transactions.ListedIff`.
- Persistence and transport:
  - Prisma queries, `fetch`, sessions and the other API routes;
  - the seed's create, delete and bcrypt code.
  A response is modelled as a parameter of the handler that receives it.
- Floating point:
  - money is an exact real, so IEEE rounding, `Math.pow` error, NaN and Infinity are not
    modelled;
  - `parseFloat` is not modelled; the prepayment amount arrives as its real value.
  - `Prepayment.PrepaymentPage.CalculatePrepayment`: where the code would divide by zero or
    amortise over a term below one month, the estimate becomes `OutsideModel`. That happens for
    a missing or non-positive payment, a non-positive balance, or a rate at or below -1200%. The
    code's values there are not computed.
- `parseInt`:
  - only an optional sign followed by decimal digits is modelled;
  - leading white space, `0x` prefixes and radix handling are not.
- zod's e-mail check is a parameter of `Application.Satisfies`.
- `Application.Message`: the text is the one shown for a value that is present but too short.
  For a field left undefined, zod shows "Required" instead. `businessType` is set only through
  its drop-down, so leaving that control untouched shows "Required", not "Business type is
  required".
- `toLowerCase` lower-cases ASCII letters only, not full Unicode.
- `Utils.TruncateText`, `Settings.PasswordRejection`, `Settings.SettingsPage.ChangePassword` and
  `Application.Satisfies`: a length is counted in Unicode characters, where JavaScript's `.length`
  and zod's `min` count UTF-16 code units. The two differ for text outside the Basic
  Multilingual Plane, such as emoji.
- `Application.SchemaAccepts`: every field is modelled as text. The term drop-down stores
  `parseInt(value)`, a number, and `preferredTerm: z.string().min(1)` refuses a number, so a
  term chosen on the page would fail its rule in the code. The model does not capture that.
- Seed rollup: the transactions arrive with the calendar month and year of their dates.
  Converting a timestamp to a local calendar month is not modelled.
- `Prepayment.PrepaymentPage.SubmitPrepayment`: the `fetchData()` refresh after a submission is
  not modelled, so the deal list is unchanged.
- The effect that re-runs `calculatePrepayment` when the deal or the amount changes is not
  modelled: calling `CalculatePrepayment` stands for it.
- The form controls' setters on the prepayment page are not modelled.
- `reset()` of the application form's values and the `onClose` callback are not modelled: the
  wizard keeps only its own state.
- `isSubmitting` disabling the Submit button is not modelled.
- The try/catch branches of `calculatePrepayment`, `handleSubmitPrepayment` and the mocked
  settings handlers cannot throw on exact values, so they are absent.
- WITHDRAWAL, DEPOSIT and TRANSFER transactions show a '+' on the transactions page, but they
  count towards neither inflow nor outflow there. The model states this asymmetry; it does not
  change it.

## Findings

| source | as written | input that shows it | evidently intended | confidence | as-written member | corrected member |
|---|---|---|---|---|---|---|
| app/components/prepayment/prepayment-page.tsx:139-146 | "interest without prepayment" is `M*ceil(B/M) - B`, the overshoot of the last payment (always in [0, M)), while the interest with prepayment is a true amortised interest; the reported saving can be negative, and for a non-negative rate and an amount not above the balance it never reaches one payment | balance 1000, rate 12%, monthly payment 1000, prepay 500: T = 1, new payment 505, reported saving -5 | compute both interests the same way, amortising B and B - amount over the same T months, so the saving is the interest on the prepaid amount, never negative | not executed | Prepayment.EstimateAsWritten (shown by Prepayment.AsWrittenNegativeSavings and Prepayment.AsWrittenSavingsBelowOnePayment) | Prepayment.EstimateCorrected (Prepayment.CorrectedSavingsIsInterestOnAmount, Prepayment.CorrectedSavingsNonNegative, Prepayment.CorrectedZeroRate) |
