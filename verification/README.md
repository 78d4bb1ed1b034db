# BookIt booking core in Dafny

BookIt is a small booking site for travel experiences: visitors browse experiences,
pick a date, a time slot and a party size, optionally preview a promo code, and book.
This project models its core and proves properties of the model:

- **Catalog** (`bookit-backend/routes/experiences.js`): the list of experiences,
  ordered by rating and then age, and one experience with its open slots, filtered,
  ordered by date and time, and grouped by date.
- **Promo** (`bookit-backend/routes/promo.js`): the promo ledger, the filter that
  decides when a code can be used, the discount formula, and the preview endpoint.
- **Reservation** (`bookit-backend/routes/bookings.js`): the booking transaction.
  It finds the slot, checks seats and status, prices the order, applies a promo
  code when it qualifies, records the booking and takes the seats. The transaction
  runs under a row lock and rolls back on any failure, so it is one atomic method
  of a `BookingService` class over the stored tables.
- **HomePage**, **DetailsPage**, **CheckoutPage**, **ContactPage**
  (`bookit-frontend/src/pages/`): the search box, the date, slot and quantity
  choice, the checkout form with its promo preview and booking request, and the
  contact form. Each page's state is a class whose methods are the event handlers.
- **Text**, **Forms**, **Ordering**, **Wrappers**: `trim`, case mapping,
  `includes`, the e-mail regular expression, the shared field rules, SQL
  `ORDER BY` and `sort()`, and `Option`/`Result`.

Money is `real`. Dates, times and timestamps are `int`: they are opaque ordered
values. `NOW()` and `CURDATE()` become a `now`/`today` parameter. Database tables
are maps keyed by id in the transaction and in the experience lookup, and row
sequences in the list and slot queries. The promo ledger is a map keyed by the stored code, which is unique.

The main results:

- The transaction keeps the stored state consistent: for every slot, the seats
  left plus the people booked equal the capacity, the seats left are never
  negative, and a slot is sold out exactly when no seat is left. So there is no
  oversell, and the "no longer available" branch never fires on a consistent state.
- The transaction applies a promo code exactly when the preview endpoint would
  accept it for the same total, and with the same discount. Redeeming a code keeps
  `used_count` within `usage_limit`.
- The checkout page sends a request whose promo code gets the quote the preview showed.
- The slot grouping is a partition of the open slots by date, with dates in
  ascending order. The details page's own sort of the dates therefore changes nothing.
- The e-mail pattern accepts exactly one plain shape of string, and that shape
  survives the page's trim-and-lower-case normalisation.

## Model

| member | source | states |
|---|---|---|
| Catalog.ListExperiences | bookit-backend/routes/experiences.js:7-16 | the list is a permutation of the table, ordered by rating descending and then creation time descending |
| Catalog.SelectOpen | bookit-backend/routes/experiences.js:57-61 | keeps each slot of the experience dated today or later, with seats left and status available, as often as it occurs, and drops every other slot |
| Catalog.OpenSlots | bookit-backend/routes/experiences.js:52-63 | exactly the open slots of the experience, each as often as in the table, ordered by date and then time slot |
| Catalog.FindDate | bookit-backend/routes/experiences.js:68 | finds the position of the group for a date when one exists, and reports none only when no group has that date |
| Catalog.PushOntoGroup | bookit-backend/routes/experiences.js:71 | pushing a slot onto its date's existing group keeps the groups a partition of the slots seen so far |
| Catalog.OpenGroup | bookit-backend/routes/experiences.js:68-70 | opening a group for a new date keeps the groups a partition of the slots seen so far |
| Catalog.GroupedGroups | bookit-backend/routes/experiences.js:66-73 | the reduce yields one non-empty group per distinct date, each holding exactly that date's slots in order, with every slot in one group |
| Catalog.GroupedAscending | bookit-backend/routes/experiences.js:62-73 | on slots ordered by date, the groups come in strictly ascending date order |
| Catalog.GroupByDate | bookit-backend/routes/experiences.js:66-73 | the loop computes the reduce's result: a partition by date, with group sizes summing to the number of slots, ascending when the input is date-ordered |
| Catalog.GetExperience | bookit-backend/routes/experiences.js:34-82 | an unknown id is the not-found error; otherwise the experience, its open slots grouped by ascending date, and a slot count equal to the slots over all groups |
| Promo.Lookup | bookit-backend/routes/promo.js:26-34 | finds a record exactly when the trimmed, upper-cased code is stored and the record is active, inside its validity window and not used up |
| Promo.Discount | bookit-backend/routes/promo.js:54-66 | a percentage of the amount, capped by any set cap (a stored zero cap included) and never above the uncapped percentage; or the fixed value; or zero for any other type |
| Promo.PercentageWithinOrder | bookit-backend/routes/promo.js:57-63 | a percentage of at most 100 with a non-negative cap discounts between zero and the order amount |
| Promo.FixedMayExceedOrder | bookit-backend/routes/promo.js:64-68 | a fixed discount larger than the order makes the final amount negative, because nothing floors it at zero |
| Promo.Validate | bookit-backend/routes/promo.js:23-83 | rejects as invalid or expired exactly when the lookup fails, and as below minimum (with the minimum) exactly when the order is under it; otherwise quotes the discount, the order amount, their difference and the savings |
| Promo.ZeroCapGivesNoDiscount | bookit-backend/routes/promo.js:61-63 | a percentage promo whose stored cap is zero discounts nothing, since the cap is set |
| Promo.ValidateIgnoresCase | bookit-backend/routes/promo.js:10-33 | codes equal up to letter case after trimming get the same answer |
| Promo.LookupKeyOfUpper | bookit-backend/routes/promo.js:33 | upper-casing a code before it is sent does not change the key it is looked up by |
| Promo.ValidateOfUpper | bookit-frontend/src/pages/CheckoutPages.tsx:224 | the preview of the upper-cased code the page holds is the preview of the code as typed |
| Promo.AppliedQuote | bookit-backend/routes/bookings.js:103-131 | the transaction applies a quote exactly when a non-blank code is given and the preview would accept it for that total, and then it applies the preview's quote |
| Promo.Redeem | bookit-backend/routes/bookings.js:133-137 | adds one to the used record's `used_count`; every other record and the set of codes are unchanged |
| Promo.RedeemKeepsLedgerValid | bookit-backend/routes/bookings.js:111-137 | redeeming a usable record keeps every record under its code and within its usage limit |
| Reservation.StoredCode | bookit-backend/routes/bookings.js:142-152 | the stored promo code is present exactly when a non-blank code was sent, and is then the trimmed code |
| Reservation.NoOversell | bookit-backend/routes/bookings.js:64-72 | in a consistent state the people booked on a slot are between zero and its capacity |
| Reservation.CapacityCheckSubsumesStatus | bookit-backend/routes/bookings.js:64-81 | in a consistent state, a slot that passes the seat check has status available |
| Reservation.ReserveKeepsConsistent | bookit-backend/routes/bookings.js:154-163 | recording a booking and taking its seats from a slot that has them keeps the state consistent |
| Reservation.PricePromo | bookit-backend/routes/bookings.js:98-140 | the promo step's discount, final price and redeemed key agree with the preview's quote for the same total; without a quote there is no discount and nothing is redeemed |
| Reservation.BookingService.Commit | bookit-backend/routes/bookings.js:133-163 | the writes of a success: the promo record used once more, the booking row appended, the slot's seats reduced and its status set to sold out exactly at zero |
| Reservation.BookingService.CreateBooking | bookit-backend/routes/bookings.js:39-167 | the checks fail in source order with the source's errors and change nothing; the request succeeds exactly when all four checks pass; a success appends exactly the priced booking, with the trimmed name, takes its seats and redeems the promo that the preview accepts; consistency is preserved and the unavailable branch is unreachable from a consistent state |
| Text.BlankIffAllWhitespace | bookit-frontend/src/pages/CheckoutPages.tsx:38 | a string trims to empty exactly when all its characters are whitespace |
| Text.TrimIdempotent | bookit-frontend/src/pages/CheckoutPages.tsx:110 | a trimmed string has no whitespace at either end, and trimming it again changes nothing |
| Text.TrimCommutesWithCase | bookit-frontend/src/pages/CheckoutPages.tsx:111 | trimming and case mapping can be done in either order |
| Text.BlankIgnoresCase | bookit-frontend/src/pages/CheckoutPages.tsx:56 | a string is blank exactly when its upper- or lower-cased form is |
| Text.UpperIdempotent | bookit-frontend/src/pages/CheckoutPages.tsx:114 | upper-casing an upper-cased code changes nothing |
| Text.LowerIdempotent | bookit-frontend/src/pages/CheckoutPages.tsx:111 | lower-casing a lower-cased address changes nothing |
| Text.SameIgnoringCaseAgree | bookit-frontend/src/pages/HomePage.tsx:37 | strings equal up to letter case have the same upper- and lower-cased forms |
| Text.EmailPatternShape | bookit-frontend/src/pages/CheckoutPages.tsx:42 | the e-mail pattern matches exactly the strings with no whitespace, one '@' after a non-empty part, and an inner '.' after it |
| Forms.FilledAtLeastMeaning | bookit-frontend/src/pages/CheckoutPages.tsx:38 | a field has a non-whitespace character and enough characters exactly when the page's rule holds: its trimmed text is non-empty and its untrimmed length is at least the minimum |
| Forms.PaddedNamePasses | bookit-frontend/src/pages/CheckoutPages.tsx:38 | the length is measured before trimming, so " a" passes the two-character name rule |
| Forms.ValidEmailShape | bookit-frontend/src/pages/CheckoutPages.tsx:42-45 | the e-mail rule accepts exactly the strings of the e-mail shape; its blank check adds nothing |
| Forms.NormalizedEmailValid | bookit-frontend/src/pages/CheckoutPages.tsx:111 | a valid address is already trimmed, and stays valid when lower-cased |
| Forms.ClearError | bookit-frontend/src/pages/CheckoutPages.tsx:147-153 | typing in a field empties its message and keeps every key and every other message |
| HomePage.FilterMentions | bookit-frontend/src/pages/HomePage.tsx:38-43 | keeps exactly the experiences whose lower-cased title, location, category or description contains the query, each as often as in the input, in their order |
| HomePage.Search | bookit-frontend/src/pages/HomePage.tsx:31-45 | a blank query shows every experience; otherwise exactly those that mention the lower-cased query, with their multiplicities, as a subsequence |
| HomePage.SearchIgnoresCase | bookit-frontend/src/pages/HomePage.tsx:37 | queries equal up to letter case find the same experiences |
| DetailsPage.AvailableDates | bookit-frontend/src/pages/DetailsPage.tsx:88 | the sorted dates are the group dates rearranged into ascending order |
| DetailsPage.SortKeepsRouteOrder | bookit-frontend/src/pages/DetailsPage.tsx:27 | on the route's date-ascending groups, the page's sort gives the dates in group order |
| DetailsPage.FirstDateIsEarliest | bookit-frontend/src/pages/DetailsPage.tsx:26-30 | the date selected on load is a date on offer and is the earliest one |
| DetailsPage.ClampQuantity | bookit-frontend/src/pages/DetailsPage.tsx:65-68 | the party size is at least one and at most a positive capacity; it is kept when it fits, cut to the capacity when too large, and one without a usable slot |
| DetailsPage.RequestCheckout | bookit-frontend/src/pages/DetailsPage.tsx:43-63 | a handoff happens exactly when an experience and a slot are selected and the party fits; it carries them, with the price times the party size |
| DetailsPage.ClampedQuantityFits | bookit-frontend/src/pages/DetailsPage.tsx:49-66 | a party size set through the quantity control always passes the booking check for its slot |
| DetailsPage.DetailsView.constructor | bookit-frontend/src/pages/DetailsPage.tsx:10-14 | nothing loaded or selected, and a party of one |
| DetailsPage.DetailsView.Load | bookit-frontend/src/pages/DetailsPage.tsx:18-41 | stores the details and selects the earliest offered date, when there is one |
| DetailsPage.DetailsView.ChooseDate | bookit-frontend/src/pages/DetailsPage.tsx:148-151 | selects the date and clears the slot choice |
| DetailsPage.DetailsView.ChooseSlot | bookit-frontend/src/pages/DetailsPage.tsx:173-174 | selects the slot unless its button is disabled for having no seats |
| DetailsPage.DetailsView.ChangeQuantity | bookit-frontend/src/pages/DetailsPage.tsx:227-241 | the party size becomes the clamped value for the selected slot, and stays at least one |
| DetailsPage.DetailsView.Book | bookit-frontend/src/pages/DetailsPage.tsx:43-63 | returns the handoff of the current selection; a handoff's party size is at least one and fits its slot |
| CheckoutPage.CheckoutForm.With | bookit-frontend/src/pages/CheckoutPages.tsx:141-146 | replaces the named input and keeps the other two |
| CheckoutPage.CheckoutErrors | bookit-frontend/src/pages/CheckoutPages.tsx:35-53 | an error, with the page's message, exactly for a failing name, a failing address or unaccepted terms, and never for the phone |
| CheckoutPage.CheckoutAccepts | bookit-frontend/src/pages/CheckoutPages.tsx:38-52 | the form passes exactly when the name rule holds, the address has the e-mail shape and the terms are accepted |
| CheckoutPage.BookingPayload | bookit-frontend/src/pages/CheckoutPages.tsx:107-115 | the request carries the handoff's ids and party size, the trimmed name, the trimmed lower-cased address, the trimmed phone or none, and the upper-cased code only when a promo is applied |
| CheckoutPage.AcceptedPayloadWellFormed | bookit-frontend/src/pages/CheckoutPages.tsx:100-115 | a request built from a form whose name and address pass their rules has a non-blank trimmed name and an address that still passes the e-mail rule |
| CheckoutPage.BookingAppliesPreviewedQuote | bookit-frontend/src/pages/CheckoutPages.tsx:67-114 | for the same ledger, time and total, the booking applies exactly the quote that the preview of the typed code gave |
| CheckoutPage.CheckoutView.constructor | bookit-frontend/src/pages/CheckoutPages.tsx:11-27 | empty form, terms unticked, no errors, no promo, and the handoff's total as the price |
| CheckoutPage.CheckoutView.ChangeField | bookit-frontend/src/pages/CheckoutPages.tsx:141-154 | stores the typed value and empties that field's message; nothing else changes |
| CheckoutPage.CheckoutView.SetTerms | bookit-frontend/src/pages/CheckoutPages.tsx:258-273 | sets the checkbox; ticking it removes a pending terms error |
| CheckoutPage.CheckoutView.EditPromoCode | bookit-frontend/src/pages/CheckoutPages.tsx:223-225 | while no promo is applied, the promo field holds the upper-cased text |
| CheckoutPage.CheckoutView.ApplyPromo | bookit-frontend/src/pages/CheckoutPages.tsx:55-86 | a blank code asks for one; otherwise the preview's quote is applied with its discount and final amount, or its rejection is shown and the prices stay; the shown price stays the total less the discount |
| CheckoutPage.CheckoutView.ShowPreview | bookit-frontend/src/pages/CheckoutPages.tsx:72-82 | a quote sets the applied flag, the discount, the final price and the savings notice; a rejection clears the flag and keeps the prices |
| CheckoutPage.CheckoutView.RemovePromo | bookit-frontend/src/pages/CheckoutPages.tsx:88-95 | clears the code, the discount and the notice, and shows the full total again |
| CheckoutPage.CheckoutView.Submit | bookit-frontend/src/pages/CheckoutPages.tsx:97-115 | stores the form's errors, and yields the booking request exactly when there are none |
| ContactPage.ContactForm.With | bookit-frontend/src/pages/ContactPage.tsx:132-137 | replaces the named field and keeps the other four |
| ContactPage.ContactErrors | bookit-frontend/src/pages/ContactPage.tsx:71-93 | an error, with the page's message, exactly for a name under two characters, a failing address, a subject under five or a message under ten, each also when blank, and never for the phone |
| ContactPage.ContactAccepts | bookit-frontend/src/pages/ContactPage.tsx:74-92 | the form passes exactly when name, subject and message meet their lengths and the address has the e-mail shape |
| ContactPage.EmptyFormRejected | bookit-frontend/src/pages/ContactPage.tsx:5-11 | the form as first shown fails on name, address, subject and message |
| ContactPage.ContactView.constructor | bookit-frontend/src/pages/ContactPage.tsx:5-15 | empty form, no errors, no success notice |
| ContactPage.ContactView.Change | bookit-frontend/src/pages/ContactPage.tsx:132-145 | stores the typed value and empties that field's message |
| ContactPage.ContactView.Submit | bookit-frontend/src/pages/ContactPage.tsx:95-119 | stores the errors; a valid form is what is sent, after which the notice shows and the form is emptied; an invalid form stays as typed |
| ContactPage.ContactView.ShowErrors | bookit-frontend/src/pages/ContactPage.tsx:91 | the page shows the errors of the form as typed |
| ContactPage.ContactView.ShowSent | bookit-frontend/src/pages/ContactPage.tsx:109-118 | the success notice shows and the form is emptied |
| ContactPage.ContactView.HideNotice | bookit-frontend/src/pages/ContactPage.tsx:120-123 | hides the success notice and keeps the form |

## Left out

- HTTP itself is not modelled: routing, status codes, JSON bodies, `success`/`message` envelopes and the `totalSlots`/`count` fields beyond what the results carry.
- The booking request's validators (`isInt`, `isEmail`, `normalizeEmail`, `isMobilePhone`) are not modelled as checks. Their guarantees become types and the `numberOfPeople >= 1` precondition. The trimming of the name and of the code is applied where they are used.
- Promo.Validate: the endpoint's validators `body('code').trim().notEmpty()` and `body('orderAmount').isFloat({ min: 0 })` are not modelled. Where the endpoint answers 400, the model answers anyway: a blank code gets InvalidOrExpired, and a negative amount gets a quote or BelowMinimum. The booking transaction runs the same lookup without those validators, and Promo.AppliedQuote relates the two.
- Reservation.BookingService.CreateBooking: the stored e-mail is taken as sent. `normalizeEmail` is not modelled, nor are the validator's rejections of a name under two characters after trimming, an invalid e-mail or an invalid phone.
- The Confirm button's disabled state (`isConfirmEnabled`) is not modelled: DetailsPage.DetailsView.Book is the click handler, which checks the selection itself.
- Database locking, connection handling and concurrent transactions are not modelled. The transaction is one atomic method, since it runs under `FOR UPDATE` and rolls back on failure.
- The re-read of the new booking after commit, and GET /bookings/user/:email, are not modelled.
- The unexpected-error branches are not modelled: the 500 responses and the pages' network-error fallbacks.
- The clock is not modelled: `NOW()`, `CURDATE()` and `setTimeout` become parameters or separate methods.
- Dates are not modelled as `toISOString` text keys. They are integers, whose numeric order is the text order of ISO dates.
- Formatting is not modelled: `toFixed(2)`, `parseFloat`, the 6% tax line, rupee display.
- Promo.Validate: amounts are exact reals, not rounded to two decimals as in the response.
- CheckoutPage.CheckoutView.ApplyPromo: stores the exact quote amounts, not the parsed two-decimal strings.
- DetailsPage.DetailsView.ChangeQuantity: takes an integer. The `parseInt(...) || 1` of the typed input is not modelled.
- The UI is not modelled: React rendering, loading flags, alerts and navigation. Navigation appears as the handoff value and the booking request.
- The checkout page's redirect when it has no handoff is not modelled.
- Lengths count characters, not UTF-16 code units as JavaScript's `.length` does. They agree inside the Basic Multilingual Plane and differ outside it: a name made of one character such as U+1D49C has length 2 on the pages and passes the two-character rule, but fails it in the model.
- Whitespace and case mapping cover ASCII only. MySQL's collation, which compares codes case-insensitively, is not modelled: codes are matched exactly after upper-casing.
- The booking row's id and timestamps are not modelled.
- CheckoutPage.BookingAppliesPreviewedQuote: prices the booking at the handoff's total. The server's own product of price and party size is equal to that total only when the details page priced the same experience.
