# FoodieFinder client logic in Dafny

This project models the decision logic of four screens of the FoodieFinder
restaurant app's web client and proves properties of it:

- **Payment dialog** (`client/src/components/payment-dialog.tsx`):
  - the Luhn card-number check, as a right-to-left loop proved against a recursive Luhn sum;
  - the `MM/YY` expiry check against the current month;
  - the ordered chain of submit checks;
  - the input filters of the card-number, expiry and CVV fields, and the four-digit grouping of the displayed card number;
  - the receipt mask;
  - the paid → confirmed → reset lifecycle. This is a `PaymentForm` class whose two deferred callbacks are explicit steps.
- **Restaurant list** (`client/src/pages/restaurants.tsx`):
  - the search, cuisine and price-range filter;
  - the four price buckets;
  - the page state that "clear filters" resets.
- **Restaurant detail** (`client/src/pages/restaurant-detail.tsx`):
  - the category list built in first-appearance order, as a loop;
  - grouping the menu under those headings;
  - the separator drawn after every heading but the last.
- **Admin menu items** (`client/src/pages/admin-menus.tsx`):
  - the restaurant filter;
  - the restaurant-name lookup with its "Unknown" fallback;
  - the add/edit dialog state and its pre-filled form, including the "Add" form that keeps the last edited item's values, because the form library stores them as its new defaults;
  - the create-or-update choice on submit.

Modules:

| file | module | contents |
|---|---|---|
| `wrappers.dfy` | `Wrappers` | `Option` |
| `text.dfy` | `Text` | the JavaScript string operations used: `\d`, `\s`, `trim`, `toLowerCase`, `includes`; a first-occurrence search that underlies `split('/')` and the decimal point `parseFloat` reads |
| `seqs.dfy` | `Seqs` | `Array.prototype.filter` and subsequences |
| `schema.dfy` | `Schema` | the `Restaurant` and `MenuItem` records the pages read |
| `payment_checks.dfy` | `PaymentChecks` | card number, expiry, CVV and receipt mask |
| `payment_dialog.dfy` | `PaymentDialog` | the submit chain and the `PaymentForm` state |
| `restaurants.dfy` | `RestaurantsPage` | the restaurant list filter |
| `restaurant_detail.dfy` | `RestaurantDetail` | the menu grouping |
| `admin_menus.dfy` | `AdminMenus` | the admin menu-items page |

The model follows these JavaScript semantics:

- `\d` is the ASCII digits.
- `\s` and `trim` remove the ECMAScript WhiteSpace and LineTerminator code points.
- `%` takes the sign of the dividend (`JsRemainder`).
- `parseInt` of a non-digit character is NaN. NaN makes the Luhn sum fail its `% 10 === 0` test, so a card number holding any character other than a digit or whitespace is rejected.
- The current date `new Date()` is a parameter `Today(fullYear, month)`.

## Model

| member | source | states |
|---|---|---|
| Text.DigitsOnly | client/src/components/payment-dialog.tsx:150 | `replace(/\D/g, "")` keeps only ASCII digits and never lengthens the string |
| Text.DigitsOnlyAppend | client/src/components/payment-dialog.tsx:150 | removing non-digits distributes over concatenation |
| Text.StripSpaces | client/src/components/payment-dialog.tsx:35 | `replace(/\s/g, "")` leaves no whitespace character |
| Text.StripSpacesAppend | client/src/components/payment-dialog.tsx:35 | removing whitespace distributes over concatenation |
| Text.Trim | client/src/components/payment-dialog.tsx:81 | `trim()` is empty exactly when every character is whitespace; otherwise its first and last characters are not whitespace |
| Text.Contains | client/src/pages/restaurants.tsx:33-34 | `includes` holds exactly when the needle occurs at some index of the haystack |
| Text.ToLowerIdempotent | client/src/pages/restaurants.tsx:33-35 | lower-casing twice is lower-casing once |
| Text.ToLower | client/src/pages/restaurants.tsx:33-35 | definition: `toLowerCase` on ASCII letters, character by character, keeping the length; ToLowerIdempotent and FiltersIgnoreCase state its use |
| Text.IndexOf | client/src/components/payment-dialog.tsx:58 | the first position of a character, or none when it does not occur |
| Seqs.Filter | client/src/pages/restaurants.tsx:31 | `filter` keeps exactly the elements satisfying the predicate, each as many times as it occurs in the input, drops the others, and never lengthens the list |
| Seqs.FilterIsSubsequence | client/src/pages/restaurants.tsx:31 | `filter` keeps the input order: its result is a subsequence of the input |
| Seqs.FilterKeepsAll | client/src/pages/admin-menus.tsx:232 | a predicate true of every element returns the list unchanged |
| PaymentChecks.LuhnSum | client/src/components/payment-dialog.tsx:38-53 | definition: the sum the loop accumulates, each digit taken as is or, at every second position from the right, doubled with 9 subtracted above 9 |
| PaymentChecks.LuhnDigit | client/src/components/payment-dialog.tsx:42-47 | one digit's contribution: itself, or when doubled, twice itself less 9 above 9; never more than 9 |
| PaymentChecks.CardNumberValid | client/src/components/payment-dialog.tsx:34-53 | definition: once whitespace is removed, 13 to 19 characters, all digits, Luhn sum divisible by 10; ValidateCardNumber is proved to decide it |
| PaymentChecks.ValidateCardNumber | client/src/components/payment-dialog.tsx:34-54 | the right-to-left loop with `sum` and `isEven` returns true exactly when the whitespace-free number has 13 to 19 characters, all digits, and a Luhn sum divisible by 10 |
| PaymentChecks.LuhnDetectsSingleDigitError | client/src/components/payment-dialog.tsx:38-53 | two digit strings that differ in one digit have Luhn sums that differ mod 10, so at most one of them passes the check |
| PaymentChecks.LuhnSumReplace | client/src/components/payment-dialog.tsx:41-51 | replacing one digit changes the Luhn sum by the difference of that position's contributions |
| PaymentChecks.LuhnAcceptsTestNumber | client/src/components/payment-dialog.tsx:34-54 | 4532015112830366 passes the card-number check |
| PaymentChecks.LuhnRejectsTamperedTestNumber | client/src/components/payment-dialog.tsx:34-54 | 4532015112830367 fails the card-number check |
| PaymentChecks.CardNumberInput | client/src/components/payment-dialog.tsx:150-152 | the stored card number is the first min(19, n) of the n digits typed, all digits |
| PaymentChecks.GroupFour | client/src/components/payment-dialog.tsx:154 | definition: blocks of four characters joined by single spaces, the empty string for no digits; its layout and round trip are GroupFourLayout and GroupFourRoundTrip |
| PaymentChecks.TypedInFourBlocks | client/src/components/payment-dialog.tsx:150-152 | a 16-digit number typed as four blocks separated by single spaces is stored as its 16 digits |
| PaymentChecks.ExampleTypedCardNumber | client/src/components/payment-dialog.tsx:150-152 | typing `4532 0151 1283 0366` stores 4532015112830366 |
| PaymentChecks.GroupFourLayout | client/src/components/payment-dialog.tsx:154 | the display form of k digits has k + (k-1)/4 characters, with a space exactly at every fifth position |
| PaymentChecks.GroupFourRoundTrip | client/src/components/payment-dialog.tsx:150-155 | removing whitespace, or non-digits, from the display form gives back the stored digits |
| PaymentChecks.CardNumberInputIdempotent | client/src/components/payment-dialog.tsx:149-156 | typing the displayed number back into the field stores the same digits |
| PaymentChecks.CardNumberValidIgnoresGrouping | client/src/components/payment-dialog.tsx:35 | the card-number check gives the same answer on the stored digits and on their display form |
| PaymentChecks.FormatExpiry | client/src/components/payment-dialog.tsx:158-164 | with fewer than 2 digits typed the field holds them as typed; otherwise `MM/` plus up to two more digits; at most 5 characters; the digits kept are the first four typed |
| PaymentChecks.FormatExpiryIdempotent | client/src/components/payment-dialog.tsx:158-164 | formatting a formatted expiry changes nothing |
| PaymentChecks.FormatExpiryShape | client/src/components/payment-dialog.tsx:158-164 | with four or more digits typed the field holds an `MM/YY`-shaped string |
| PaymentChecks.ParseTwoDigits | client/src/components/payment-dialog.tsx:60-63 | `/^\d{2}$/` plus `parseInt` yields a value exactly for two ASCII digits, and that value is their decimal reading |
| PaymentChecks.JsRemainder | client/src/components/payment-dialog.tsx:69 | for a non-negative year, `% 100` lies in 0..99 |
| PaymentChecks.SplitMonthYear | client/src/components/payment-dialog.tsx:58 | definition: the first two fields of `split('/')`; SplitOfShape shows they are the two halves of an `MM/YY` string |
| PaymentChecks.ExpiryValid | client/src/components/payment-dialog.tsx:56-76 | definition: the expiry check step by step (length and `/`, split, two-digit fields, month range, year and month against the current date); ExpiryValidCharacterization states what it accepts |
| PaymentChecks.ExpiryValidCharacterization | client/src/components/payment-dialog.tsx:56-76 | the expiry check accepts exactly the `DD/DD` strings with a month from 1 to 12 whose two-digit year is later than the current one, or equal with the month not yet past |
| PaymentChecks.ExpiryRejectsMalformed | client/src/components/payment-dialog.tsx:57-66 | `1/23`, `13/25`, `00/25` and `ab/25` are rejected on every date |
| PaymentChecks.ExpiryRejectsLastMonth | client/src/components/payment-dialog.tsx:72-73 | `03/25` is rejected in April 2025 |
| PaymentChecks.ExpiryAcceptsThisMonth | client/src/components/payment-dialog.tsx:72-75 | `04/25` is accepted in April 2025 |
| PaymentChecks.ExampleExpiryValid | client/src/components/payment-dialog.tsx:72-75 | `12/30` is accepted in April 2025 |
| PaymentChecks.ExpiryCenturyRollover | client/src/components/payment-dialog.tsx:69-73 | the year comparison uses two digits only: `01/00` is rejected in December 2099 and accepted in January 2000 |
| PaymentChecks.CvvInput | client/src/components/payment-dialog.tsx:277 | the stored CVV is the first min(4, n) of the n digits typed, all digits |
| PaymentChecks.CvvInputIdempotent | client/src/components/payment-dialog.tsx:277 | filtering a stored CVV again changes nothing |
| PaymentChecks.MaskedCardRevealsLastFour | client/src/components/payment-dialog.tsx:191-193 | the receipt shows four bullets and, of the card's digits, only the last four (none when the number is shorter than four) |
| PaymentChecks.MaskedCard | client/src/components/payment-dialog.tsx:191-193 | definition: four bullets, then a space and the last four characters when there are at least four; MaskedCardRevealsLastFour states what it reveals |
| PaymentChecks.ExampleReceipt | client/src/components/payment-dialog.tsx:191-193 | card 4532015112830366 is shown as `•••• 0366` |
| PaymentDialog.DigitsOnlyEmpty | client/src/components/payment-dialog.tsx:90-91 | removing the non-digits leaves nothing exactly when no digit was present |
| PaymentDialog.NameGiven | client/src/components/payment-dialog.tsx:81 | definition: the name has a character other than whitespace; TrimEmptyIffBlank ties it to `trim()` |
| PaymentDialog.HasDigit | client/src/components/payment-dialog.tsx:90-91 | definition: the card number has an ASCII digit; DigitsOnlyEmpty ties it to the emptiness of `replace(/\D/g, "")` |
| PaymentDialog.CvvWellFormed | client/src/components/payment-dialog.tsx:118 | definition: three or four characters, all ASCII digits |
| PaymentDialog.Passes | client/src/components/payment-dialog.tsx:81-118 | definition: the condition each of the five rules demands (lines 81, 90-91, 100, 109, 118), on its own |
| PaymentDialog.TrimEmptyIffBlank | client/src/components/payment-dialog.tsx:81 | the trimmed name is empty exactly when the name has no character other than whitespace |
| PaymentDialog.CheckSubmission | client/src/components/payment-dialog.tsx:81-125 | definition: the first rule, in the chain order of `RuleOrder`, that fails, or acceptance when none fails |
| PaymentDialog.FirstFailingSpec | client/src/components/payment-dialog.tsx:81-125 | for any rule order: acceptance exactly when every rule passes; a rejection names a rule that fails and every rule before it passes |
| PaymentDialog.CheckSubmissionInOrder | client/src/components/payment-dialog.tsx:81-125 | the decision, unfolded, tests name, digits, card-number check, expiry and CVV in that order and reports the first failure |
| PaymentDialog.CheckSubmissionFirstFailing | client/src/components/payment-dialog.tsx:78-127 | a submission is accepted exactly when all five rules pass; a rejection names a failing rule and every earlier rule in the chain passes |
| PaymentDialog.AcceptedWhenAllPass | client/src/components/payment-dialog.tsx:81-127 | when the name, format, checksum, expiry and CVV rules all pass, the submission is accepted |
| PaymentDialog.AcceptedSubmissionWellFormed | client/src/components/payment-dialog.tsx:78-127 | an accepted submission has a non-blank name; a card number of 13 to 19 digits with a Luhn sum divisible by 10 once whitespace is removed; an `MM/YY` expiry with month 1 to 12; and a CVV of 3 or 4 digits |
| PaymentDialog.ValidateSubmission | client/src/components/payment-dialog.tsx:81-125 | the early-return chain of the handler computes the first failing rule in chain order |
| PaymentDialog.PaymentForm.constructor | client/src/components/payment-dialog.tsx:25-32 | a new dialog has four empty fields, an empty display number and is not paid |
| PaymentDialog.PaymentForm.ChangeCardName | client/src/components/payment-dialog.tsx:221 | the cardholder name is stored as typed and nothing else changes |
| PaymentDialog.PaymentForm.ChangeCardNumber | client/src/components/payment-dialog.tsx:149-156 | stores the filtered digits and shows them grouped; the digits of the display are the stored number |
| PaymentDialog.PaymentForm.ChangeExpiry | client/src/components/payment-dialog.tsx:258 | stores the formatted expiry and keeps the partial `MM/YY` shape |
| PaymentDialog.PaymentForm.ChangeCvv | client/src/components/payment-dialog.tsx:277 | stores at most four digits |
| PaymentDialog.PaymentForm.Submit | client/src/components/payment-dialog.tsx:78-127 | a rejected submission changes nothing; an accepted one marks the payment paid and schedules the confirmation |
| PaymentDialog.PaymentForm.FireConfirmation | client/src/components/payment-dialog.tsx:129-134 | the first callback runs only when scheduled and then schedules the reset |
| PaymentDialog.PaymentForm.FireReset | client/src/components/payment-dialog.tsx:135-145 | the reset clears the paid flag, all four fields and the display, and closes the dialog; when not scheduled nothing changes |
| PaymentDialog.PaymentForm.ReceiptCard | client/src/components/payment-dialog.tsx:189-194 | the receipt's card line reveals only the last four stored digits |
| PaymentDialog.ExampleAccepted | client/src/components/payment-dialog.tsx:78-127 | Jane Doe, 4532015112830366, 12/30, CVV 123 is accepted in April 2025 |
| PaymentDialog.ReservationScenario | client/src/components/payment-dialog.tsx:127-156 | on a form holding Jane Doe, 12/30 and 123, typing `4532 0151 1283 0366` and submitting in April 2025 is accepted; the confirmation fires; the reset closes the dialog and leaves an empty, unpaid form; a second reset does not close it again |
| RestaurantsPage.ParseDecimal | client/src/pages/restaurants.tsx:42-43 | an empty price text is not a number; ParseDecimalWhole and ParseDecimalFraction give the value of `w` and `w.f`, each unsigned, after `-` or after `+`, for digit strings `w` and `f` |
| RestaurantsPage.ParseDecimalWhole | client/src/pages/restaurants.tsx:42 | a run of digits reads as the whole number it spells; after `-` as its negation, after `+` unchanged |
| RestaurantsPage.DecimalValue | client/src/pages/restaurants.tsx:42 | the value of `w.f` is the whole part plus the fraction digits over 10^|f|, and lies in [w, w + 1) |
| RestaurantsPage.ParseDecimalFraction | client/src/pages/restaurants.tsx:42 | `w.f` and `+w.f` read as DecimalValue(w, f) and `-w.f` as its negation, for digit strings w and f with at least one digit |
| RestaurantsPage.ExampleParseJustUnder | client/src/pages/restaurants.tsx:42 | the price text 14.99 reads as 14.99 |
| RestaurantsPage.ExampleParseOnBoundary | client/src/pages/restaurants.tsx:42 | the price text 15.00 reads as 15 |
| RestaurantsPage.ExamplePriceJustUnder | client/src/pages/restaurants.tsx:42-48 | a restaurant priced 14.99 passes `$` and not `$$` |
| RestaurantsPage.ExamplePriceOnBoundary | client/src/pages/restaurants.tsx:42-48 | a restaurant priced 15.00 passes `$$` and not `$` |
| RestaurantsPage.MatchesSearch | client/src/pages/restaurants.tsx:32-34 | definition: no query, or the lower-cased query occurs in the lower-cased name or description; SearchIsSubstring restates it through positions |
| RestaurantsPage.MatchesCuisine | client/src/pages/restaurants.tsx:35 | definition: no cuisine chosen, or equal after lower-casing both sides |
| RestaurantsPage.MatchesPrice | client/src/pages/restaurants.tsx:37-55 | definition: the price test's if-chain; PriceBucketsPartition, MissingPriceExcluded and UnknownCodeNeedsPrice state its behaviour |
| RestaurantsPage.Matches | client/src/pages/restaurants.tsx:57 | definition: `matchesSearch && matchesCuisine && matchesPrice` |
| RestaurantsPage.FilteredRestaurants | client/src/pages/restaurants.tsx:31-58 | definition: absent before loading, otherwise the restaurants passing all three tests; FilteredRestaurantsSpec states its contents and order |
| RestaurantsPage.FilteredRestaurantsSpec | client/src/pages/restaurants.tsx:31-58 | nothing is shown before the list loads; afterwards the shown list keeps the loaded order and holds exactly the restaurants that pass search, cuisine and price |
| RestaurantsPage.NoFiltersKeepAll | client/src/pages/restaurants.tsx:32-38 | with all three filters empty every restaurant is shown, in order |
| RestaurantsPage.PriceBucketsPartition | client/src/pages/restaurants.tsx:45-53 | a restaurant with a usable price passes exactly the one price code of its bucket: `$` < 15 ≤ `$$` < 30 ≤ `$$$` < 60 ≤ `$$$$` |
| RestaurantsPage.MissingPriceExcluded | client/src/pages/restaurants.tsx:38-44 | with a price filter set, a null, empty or non-numeric average price is excluded |
| RestaurantsPage.UnknownCodeNeedsPrice | client/src/pages/restaurants.tsx:37-55 | a price filter other than the four codes excludes exactly the restaurants without a usable price |
| RestaurantsPage.SearchIsSubstring | client/src/pages/restaurants.tsx:32-34 | the search passes when the query is empty or the lower-cased query occurs in the lower-cased name or description |
| RestaurantsPage.FiltersIgnoreCase | client/src/pages/restaurants.tsx:33-35 | lower-casing the query or the cuisine choice does not change the outcome |
| RestaurantsPage.RestaurantsPage.constructor | client/src/pages/restaurants.tsx:21-23 | a missing URL parameter starts its filter as "" |
| RestaurantsPage.RestaurantsPage.ClearFilters | client/src/pages/restaurants.tsx:60-64 | all three filters become "", after which every loaded restaurant is shown |
| RestaurantDetail.MenuCategories | client/src/pages/restaurant-detail.tsx:30-35 | the reduce loop yields the first-appearance category list, and the empty list when no items are loaded |
| RestaurantDetail.FirstAppearances | client/src/pages/restaurant-detail.tsx:30-35 | definition: the list the reduce accumulates; distinctness, membership and order are the three lemmas below |
| RestaurantDetail.FirstAppearancesDistinct | client/src/pages/restaurant-detail.tsx:31-33 | no category is listed twice |
| RestaurantDetail.FirstAppearancesMembership | client/src/pages/restaurant-detail.tsx:30-35 | a category is listed exactly when some item has it |
| RestaurantDetail.FirstAppearancesOrder | client/src/pages/restaurant-detail.tsx:30-35 | an earlier heading's first item comes before a later heading's first item |
| RestaurantDetail.FirstIndex | client/src/pages/restaurant-detail.tsx:31 | the position of the first item with a given category |
| RestaurantDetail.Section | client/src/pages/restaurant-detail.tsx:158-159 | definition: the items whose category equals the heading, in menu order |
| RestaurantDetail.EachItemInOneSection | client/src/pages/restaurant-detail.tsx:154-160 | every item's category is a heading, and the item is listed under that heading and no other; each section keeps the menu order |
| RestaurantDetail.TotalListedCovers | client/src/pages/restaurant-detail.tsx:154-160 | distinct headings that cover every item's category list every item once |
| RestaurantDetail.SectionsPartitionMenu | client/src/pages/restaurant-detail.tsx:154-160 | the sections under the page's headings together hold as many entries as the menu |
| RestaurantDetail.HasSeparator | client/src/pages/restaurant-detail.tsx:176 | definition: the heading differs from the last heading |
| RestaurantDetail.SeparatorAllButLast | client/src/pages/restaurant-detail.tsx:176 | with distinct headings a separator follows a heading exactly when it is not the last |
| RestaurantDetail.SeparatorCount | client/src/pages/restaurant-detail.tsx:176 | n headings draw n − 1 separators |
| AdminMenus.FilterAllKeepsEverything | client/src/pages/admin-menus.tsx:231-232 | the filters "" and "all" show the loaded list unchanged |
| AdminMenus.FilterByRestaurant | client/src/pages/admin-menus.tsx:231-234 | any other filter shows exactly the items of that restaurant, in list order |
| AdminMenus.FilteredMenuItems | client/src/pages/admin-menus.tsx:231-234 | definition: absent before loading, otherwise the items passing the restaurant filter; the two lemmas above state its result |
| AdminMenus.PassesRestaurantFilter | client/src/pages/admin-menus.tsx:232-233 | definition: "" and "all" pass every item, any other value only the items of that restaurant |
| AdminMenus.FindById | client/src/pages/admin-menus.tsx:237 | `find` yields the first restaurant with the id, or none when no restaurant has it |
| AdminMenus.GetRestaurantName | client/src/pages/admin-menus.tsx:236-238 | definition: the first match's name or "Unknown"; GetRestaurantNameSpec and NameOfListedRestaurant state its result |
| AdminMenus.GetRestaurantNameSpec | client/src/pages/admin-menus.tsx:236-238 | "Unknown" when the list is absent or no restaurant has the id; otherwise the first match's name, or "Unknown" when that name is empty |
| AdminMenus.NameOfListedRestaurant | client/src/pages/admin-menus.tsx:236-238 | with unique ids, a listed restaurant with a name is shown by that name |
| AdminMenus.Prefill | client/src/pages/admin-menus.tsx:208-215 | editing copies every field of the item, and a null description or image URL becomes "" |
| AdminMenus.SubmitAction | client/src/pages/admin-menus.tsx:223-229 | definition: an update of the edited item, otherwise a create; SubmitActionSpec states it |
| AdminMenus.SubmitActionSpec | client/src/pages/admin-menus.tsx:223-229 | an update is sent exactly while an item is being edited, with that item's id; either request carries the submitted values |
| AdminMenus.AdminMenusPage.constructor | client/src/pages/admin-menus.tsx:114-137 | the dialog starts closed, with no item edited, the `useForm` defaults as both the form and the stored defaults, and the filter "all", which shows every item |
| AdminMenus.AdminMenusPage.OpenDialog | client/src/pages/admin-menus.tsx:205-221 | opening on an item pre-fills the form from it and makes those values the stored defaults; opening without one clears the edited item and restores the stored defaults, unchanged; the dialog opens |
| AdminMenus.AdminMenusPage.Submit | client/src/pages/admin-menus.tsx:223-229 | the request is an update of the edited item's id when one is edited, otherwise a create, carrying the submitted values |
| AdminMenus.AdminMenusPage.CreateSucceeded | client/src/pages/admin-menus.tsx:143-151 | a successful create closes the dialog and resets the form to the stored defaults |
| AdminMenus.AdminMenusPage.UpdateSucceeded | client/src/pages/admin-menus.tsx:165-174 | a successful update closes the dialog, forgets the edited item and resets the form to the stored defaults |
| AdminMenus.AdminMenusPage.ResetTo | client/src/pages/admin-menus.tsx:208-215 | `form.reset(values)` sets the form to the values and makes them the stored defaults |
| AdminMenus.AdminMenusPage.Reset | client/src/pages/admin-menus.tsx:218 | `form.reset()` sets the form to the stored defaults |
| AdminMenus.AddAfterEdit | client/src/pages/admin-menus.tsx:165-221 | editing an item, saving it as an update of that item, and then opening the dialog to add shows the add form filled with the edited item's values |

## Left out

- Toasts, `setTimeout` delays, query invalidation and the network requests themselves. The two deferred payment callbacks are explicit steps (`FireConfirmation`, `FireReset`), with no timing between them.
- PaymentDialog.PaymentForm.Submit: requires that the payment is not already marked paid. While it is paid the dialog renders the receipt instead of the form (`payment-dialog.tsx:169`), so the handler cannot run.
- The browser's `required` constraint on the four payment inputs (`payment-dialog.tsx:222, 240, 260, 279`). It stops the submit event while a field is empty, so the browser's prompt appears instead of the handler's message, for example for an empty name. The handler is modelled as if it always runs.
- The browser's `maxLength` truncation on the expiry and CVV inputs. It happens before the change handlers, which are modelled on whatever text reaches them.
- Character handling:
  - `toLowerCase` is modelled for ASCII letters only; Unicode case mapping is not modelled.
  - Strings are sequences of Unicode code points; there is no normalisation. JavaScript's `length` counts UTF-16 code units, which differs only for characters outside the Basic Multilingual Plane. Every length-sensitive check modelled rejects such characters anyway.
- RestaurantsPage.ParseDecimal: reads only a complete signed decimal numeral (`12`, `12.50`, `-3.5`), which is what a decimal column delivers. `parseFloat`'s acceptance of leading whitespace, trailing garbage, exponents and `Infinity` is not modelled. Floating-point rounding is not modelled either: prices are exact rationals.
- The `toFixed` price display and all layout code.
- react-hook-form `reset`: modelled as version 7 of the library documents it. `form.reset(values)` also replaces the stored default values, and `form.reset()` restores them. So once an item has been edited, a later "Add" opens pre-filled with that item's values (`AddAfterEdit`). The library's own code is not part of this model.
- Zod validation of the admin form (`zodResolver(insertMenuItemSchema)`), the delete dialog and the restaurant combobox selection on the list page.
- The server (`server/routes.ts`, `server/storage.ts`, `server/seed.ts`), the table declarations in `shared/schema.ts` beyond the fields the pages read, and SQL result ordering.
