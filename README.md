# Cosmic venue reservations — a Dafny model of the booking core

This project models the server side of the Cosmic venue-reservation service. The service
takes bookings for three facilities: bowling, billiards and an arcade. The model covers:

- the record shapes of the `facilities`, `reservations` and `contact_messages` tables;
- the validation rules that a reservation request and a contact request must pass;
- the storage layer, as an in-memory store with one table per entity;
- the HTTP handlers: list facilities, the hourly availability calendar, create, update
  and delete a reservation, and submit a contact message. Each handler is a method that
  returns the status code it would send.

Modules, in dependency order:

| file | module | what it holds |
|---|---|---|
| `wrappers.dfy` | `Wrappers` | `Option` and `Result` |
| `seqs.dfy` | `Seqs` | the two table queries: select-where (`Where`) and first match (`FirstWhere`) |
| `text.dfy` | `Text` | decimal rendering of numbers (`toString`), `padStart(2, '0')` and string order |
| `schema.dfy` | `Schema` | rows, insert shapes, request bodies, dates, e-mail addresses, the two insert schemas |
| `pricing.dfy` | `Pricing` | the pricing-tier multiplier and the total cost |
| `slots.dfy` | `Slots` | the availability loop (`Calendar`) and facts about slot times |
| `storage.dfy` | `Storage` | `class Store`: the tables, the id counter, every storage operation, seeding |
| `routes.dfy` | `Routes` | the handlers over an explicitly passed `Store`, and the route tests replayed |

Representation choices:

- **Money.** Amounts are integer cents; the decimal columns have scale 2. The tier
  multipliers are held in tenths: 8, 12, 18, or 10 for any other tier. The exact price is
  therefore a whole number of tenths of a cent. `TotalCostCents` rounds it to the nearest
  cent. Every multiplier is even, so the exact price is never halfway between two cents.
- **Identifiers.** The database draws a random UUID for each row. The store instead hands
  out the decimal rendering of a counter. An identifier is fresh because rendering is
  injective (`Text.NatToStringInjective`).
- **Clock.** "Today" (a `Day`) and "now" (the `createdAt` stamp) are parameters.
- **Request bodies.** A request body is a record of `Option` fields; `None` is a key the
  client did not send. Validation returns either the validated data or the list of
  fields that broke a rule.
- **No double booking.** `Schema.NoDoubleBooking` says that no two reservations share
  facility, date and time. The handlers keep it as their invariant (`Routes.Consistent`).
  It is not an invariant of the store. The store's general update can move a reservation
  onto a taken slot (`Storage.MoveCanDoubleBook`), and only the status-only update that the
  PATCH handler issues is proved to keep it.

The model follows the code as written, including where its behaviour may be surprising:

- **Contact name.** The contact schema does not constrain `name` beyond requiring it, so an
  empty name is accepted. A contact request fails on a missing name, an invalid e-mail or a
  short message.
- **`totalCost`.** The reservation schema requires `totalCost`, since the column is
  `notNull` with no default. The handler then replaces it with the computed price.
- **Check order.** The slot-conflict check (409) runs before the facility lookup (404). A
  request for a taken slot of a facility that does not exist is therefore answered 409.
- **Noon.** Hour 12 displays as "12:00 AM", because the condition is `hour <= 12`.
- **Update.** `updateReservation` merges any supplied columns without checking slots again.
- **Negative duration.** `duration || 1` replaces only a missing or zero duration. The
  schema puts no lower bound on `duration`, so a negative duration is accepted and billed
  at a negative price; the model does the same (`Pricing.BilledHours` keeps it).

## Model

| member | source | states |
|---|---|---|
| `Seqs.Where` | server/storage.ts:142-152 | a `select … where` keeps exactly the rows satisfying the condition, never more rows than the table, and all of them only when every row satisfies it |
| `Seqs.FirstWhere` | server/storage.ts:110-116 | `const [row] = select … where` is nothing exactly when no row matches, and otherwise the first matching row |
| `Seqs.WhereAgrees` | server/storage.ts:142-152 | two conditions that agree on every row select the same rows |
| `Text.NatToString` | server/routes.ts:27 | `hour.toString()` is a non-empty string of decimal digits, one digit long exactly below 10 |
| `Text.NatToStringInjective` | server/routes.ts:27 | different numbers render differently |
| `Text.TwoDigitRendering` | server/routes.ts:27 | a two-digit number renders as its tens digit then its units digit |
| `Text.PadStart2` | server/routes.ts:27 | `padStart(2, '0')`: zeros go in front until the string is two characters long |
| `Text.PadStart2Pads` | server/routes.ts:27 | the padded string is two characters long (or `s` itself when longer), ends with `s`, and is `'0'` before it |
| `Text.PadStart2Examples` | server/routes.ts:27 | `""` pads to `"00"`, `"7"` to `"07"`, and `"22"` stays `"22"` |
| `Schema.ParseIsoDate` | shared/schema.ts:61-66 | a date that parses has month 1..12, day 1..31, and the `YYYY-MM-DD` shape; which day it names is fixed by the two round-trip lemmas below |
| `Schema.FormatIsoDate` | shared/schema.ts:27 | the zero-padded `YYYY-MM-DD` text of a day with a four-digit year |
| `Schema.ParseFormattedDate` | shared/schema.ts:61-66 | every day with a four-digit year, month 1..12 and day 1..31 is accepted, and its text parses back to that same day |
| `Schema.FormatParsedDate` | shared/schema.ts:61-66 | a string that parses is exactly the text of the day it names, so no other spelling is accepted |
| `Schema.TodayOrLater` | shared/schema.ts:61-66 | the date rule: the string names a day that is today or later |
| `Schema.IsEmail` | shared/schema.ts:58 | the e-mail rule: a local part, an `@`, then a domain, each read by its own scanner |
| `Schema.LocalFrom` | shared/schema.ts:58 | the local part: letters, digits and `_ ' + - .`, no two dots in a row, ending in a letter, digit, `_`, `+` or `-` before the `@` |
| `Schema.DomainFrom` | shared/schema.ts:58 | the domain: labels of letters, digits and `-` that start with a letter or digit, each followed by a dot, then a top-level label of two or more letters |
| `Schema.ReservationFieldRejected` | shared/schema.ts:54-67 | the reservation rules: every required key present, e-mail valid, phone at least 10 characters, date today or later, party size 1..20 |
| `Schema.ContactFieldRejected` | shared/schema.ts:69-75 | the contact rules: name present (it may be empty), e-mail valid, message at least 10 characters |
| `Schema.EveryReservationFieldListed` | shared/schema.ts:54-67 | the list of reservation fields checked holds every field |
| `Schema.EveryContactFieldListed` | shared/schema.ts:69-75 | the list of contact fields checked holds every field |
| `Schema.ReservationIssues` | shared/schema.ts:54-67 | a field is reported exactly when it breaks its rule |
| `Schema.ContactIssues` | shared/schema.ts:69-75 | a contact field is reported exactly when it breaks its rule |
| `Schema.RequiredFieldsPresent` | shared/schema.ts:21-33 | a request that breaks no rule carries every required key (`notNull` without a default) |
| `Schema.ParseReservation` | shared/schema.ts:54-67 | the reservation schema accepts exactly when no field is reported, fails with exactly the reported fields, and passes the accepted fields through unchanged |
| `Schema.ParseContact` | shared/schema.ts:69-75 | the contact schema accepts exactly when no field is reported and passes name, e-mail and message through |
| `Schema.ReservationAcceptedIffNoRuleBroken` | shared/schema.ts:54-67 | a reservation request is accepted if and only if no field breaks its rule, and a failure names exactly the broken fields |
| `Schema.ContactAcceptedIffNoRuleBroken` | shared/schema.ts:69-75 | a contact request is accepted if and only if no field breaks its rule, and a failure names exactly the broken fields |
| `Schema.EmailExamples` | shared/schema.ts:58 | "jane@example.com" and "john@example.com" are e-mail addresses and "invalid" is not |
| `Schema.ExampleDomain` | shared/schema.ts:58 | "example.com" at the end of an address is an acceptable domain |
| `Schema.FourLetterAddress` | shared/schema.ts:58 | a four-letter name at "example.com", the shape of both test addresses, passes the e-mail rule |
| `Schema.ShortPhoneRejected` | shared/schema.ts:59 | a phone number shorter than 10 characters is rejected and reported |
| `Schema.PartySizeBounds` | shared/schema.ts:60 | the party size is reported exactly when it is missing or outside 1..20, so an accepted request has a party size in 1..20, and 0 and 21 are refused |
| `Schema.PastDateRejected` | shared/schema.ts:61-66 | a date before today is rejected and reported |
| `Schema.UnparsableDateRejected` | shared/schema.ts:61-66 | a date that names no day is rejected |
| `Schema.ClientKeysIgnored` | shared/schema.ts:54-57 | for every request body, the `id` and `createdAt` the client sends change nothing in the outcome |
| `Schema.UnconstrainedKeys` | shared/schema.ts:21-33 | once `time` and `pricingTier` are present, any strings there (and any `status`) leave the reported fields unchanged: these columns are checked only for presence |
| `Schema.ContactExamples` | server/routes.test.ts:53-71 | the test's complete contact message is accepted as sent; the empty-name, "invalid", "short" message fails on e-mail and message but not on name |
| `Pricing.MultiplierTenths` | server/routes.ts:66-78 | the multiplier is even, and it is the neutral 1.0 exactly for a tier other than the three named ones |
| `Pricing.BilledHours` | server/routes.ts:80 | `duration \|\| 1` is never zero and keeps a non-zero duration |
| `Pricing.ExactTenths` | server/routes.ts:80 | rate × multiplier × billed hours, exactly, in tenths of a cent |
| `Pricing.RoundToCents` | server/routes.ts:80 | `toFixed(2)`: tenths of a cent rounded to the nearest cent |
| `Pricing.ExactTenthsIsEven` | server/routes.ts:65-80 | the exact price in tenths of a cent is even, so it is never halfway between two cents |
| `Pricing.TotalCostCents` | server/routes.ts:80 | the total is within half a cent of rate × multiplier × hours |
| `Pricing.TotalCostIsTheNearestCent` | server/routes.ts:80 | no other whole number of cents is as close to the exact price |
| `Pricing.PriceExamples` | server/routes.ts:64-80 | at 45.00 an hour: explorer 36.00, commander 54.00, galactic-vip for two hours 162.00, an unknown tier 45.00, a missing or zero duration one hour, and a duration of -1 billed at -36.00 |
| `Slots.TimeString` | server/routes.ts:27 | the slot time: the hour padded to two digits, then ":00" |
| `Slots.DisplayTime` | server/routes.ts:32 | the display time: the hour then ":00 AM" up to 12, otherwise the hour minus 12 then ":00 PM" |
| `Slots.TimeTaken` | server/routes.ts:28 | some reservation has exactly that time |
| `Slots.Calendar` | server/routes.ts:25-34 | thirteen slots for hours 10 to 22, in order, each with its padded time and its display time, available exactly when no reservation has that time |
| `Slots.TimeTakenBySomeReservation` | server/routes.ts:28 | `reservations.some(r => r.time === t)` holds exactly when some reservation has time `t` |
| `Slots.SlotTimeShape` | server/routes.ts:27 | every slot time is two digits of the hour followed by ":00" |
| `Slots.SlotTimes` | server/routes.ts:26-27 | the slot times are "10:00" to "22:00", written out |
| `Slots.SlotTimesAscending` | server/routes.ts:26-27 | later hours give strictly later slot time strings |
| `Slots.OffGridBlocksNothing` | server/routes.ts:28 | a reservation whose time is off the hourly grid makes no slot unavailable |
| `Slots.HalfHourIsOffGrid` | server/routes.ts:26-27 | "10:30" is not a slot time |
| `Slots.DisplayTimeExamples` | server/routes.ts:32 | 10 displays "10:00 AM", 12 "12:00 AM", 13 "1:00 PM", 22 "10:00 PM" |
| `Slots.DisplayTimeInjective` | server/routes.ts:32 | different hours display differently |
| `Storage.IssuedIdIsNumeral` | shared/schema.ts:22 | every identifier the store hands out is a non-empty string of digits |
| `Storage.NextIdIsFresh` | shared/schema.ts:22 | the next identifier was never handed out before |
| `Storage.Merge` | server/storage.ts:166-170 | `SET` of the supplied columns: each supplied field replaces the stored one, the id never changes |
| `Storage.ReservationRow` | shared/schema.ts:21-35 | the inserted row: the store's id, duration 1 and status "confirmed" when absent, and the clock as `createdAt` |
| `Storage.StatusPatchChangesOnlyStatus` | server/routes.ts:116 | the patch `{ status }` changes the status and nothing else, so the slot stays the same |
| `Storage.MoveCanDoubleBook` | server/storage.ts:162-172 | a merge-update that sets facility, date and time can turn two separately booked reservations into a double booking |
| `Storage.WhereRowsAreTableRows` | server/storage.ts:174-180 | every row a selection keeps comes from the table |
| `Storage.WhereKeepsNoDoubleBooking` | server/storage.ts:174-180 | removing rows keeps the double-booking invariant |
| `Storage.WhereKeepsUniqueIds` | server/storage.ts:174-180 | removing rows keeps reservation ids unique |
| `Storage.Store.Valid` | shared/schema.ts:12-43 | every stored id was handed out by the store, and the ids within each of the three tables are unique, as primary keys are |
| `Storage.Store.constructor` | server/storage.ts:54-57 | a new store has empty tables and is valid |
| `Storage.Store.NewId` | shared/schema.ts:13 | hands out an identifier that was never handed out before, and keeps every earlier one issued |
| `Storage.Store.GetFacility` | server/storage.ts:110-116 | nothing exactly when no facility has the id, otherwise a stored facility with that id |
| `Storage.Store.GetReservation` | server/storage.ts:127-133 | nothing exactly when no reservation has the id, otherwise a stored reservation with that id |
| `Storage.Store.ReservationsByDate` | server/storage.ts:135-140 | exactly the reservations on that date |
| `Storage.Store.ReservationsByFacilityAndDate` | server/storage.ts:142-152 | exactly the reservations of that facility on that date |
| `Storage.Store.CreateFacility` | server/storage.ts:118-121 | appends one facility with the given fields under a fresh id; the other tables do not change |
| `Storage.Store.CreateReservation` | server/storage.ts:154-160 | appends one reservation under a fresh id, with duration 1 and status "confirmed" when absent (shared/schema.ts:29, 33), stamped with the clock; the other tables do not change |
| `Storage.Store.UpdateReservation` | server/storage.ts:162-172 | every row with the id gets the supplied fields and no other row changes; the result is nothing exactly when no row had the id, and otherwise the updated row |
| `Storage.Store.DeleteReservation` | server/storage.ts:174-180 | removes exactly the rows with the id, reports whether there was one, and keeps the double-booking invariant |
| `Storage.Store.CreateContactMessage` | server/storage.ts:182-190 | appends one message with the given fields under a fresh id, stamped with the clock |
| `Storage.Store.InitializeDefaultFacilities` | server/storage.ts:59-91 | an empty catalog receives the three default facilities under three different fresh ids; a non-empty one is left alone, so seeding twice changes nothing |
| `Routes.Consistent` | server/routes.ts:47-56 | the handlers' invariant: a valid store in which no slot is double booked |
| `Routes.KnownStatus` | server/routes.ts:112 | the statuses the PATCH handler accepts: "pending", "confirmed", "cancelled" |
| `Routes.Priced` | server/routes.ts:82-85 | the validated data with `totalCost` replaced by the computed price |
| `Routes.FreshStoreIsConsistent` | server/storage.ts:54-57 | a valid store with no reservations satisfies the handlers' invariant |
| `Routes.ConflictCheckIsExact` | server/routes.ts:47-53 | looking for the time among that facility's reservations on that date finds a conflict exactly when some reservation occupies the requested slot |
| `Routes.AddingFreeSlotKeepsNoDoubleBooking` | server/routes.ts:47-56 | appending a reservation whose slot is free keeps the double-booking invariant |
| `Routes.ListFacilities` | server/routes.ts:9-16 | answers 200 with the whole catalog |
| `Routes.ListReservations` | server/routes.ts:97-104 | answers 200 with every reservation |
| `Routes.Availability` | server/routes.ts:19-40 | answers 200 with thirteen hourly slots, each unavailable exactly when a reservation of that facility and date has that slot's time |
| `Routes.CreateReservation` | server/routes.ts:43-94 | 400 exactly when validation fails, 409 exactly when the slot is taken, 404 exactly when the facility is unknown, otherwise 201 with one row added at the tier price of the facility's rate; nothing is written unless 201, and no slot is ever double booked |
| `Routes.PatchReservation` | server/routes.ts:106-125 | 400 for a missing or unknown status, 404 for an unknown id, both without writing; otherwise 200, answering the stored row with its new status, and only that reservation's status changes |
| `Routes.DeleteReservation` | server/routes.ts:127-141 | 404 exactly when no reservation has the id; otherwise 204 and the reservation is gone |
| `Routes.SubmitContact` | server/routes.ts:143-155 | 400 exactly when validation fails, without writing; otherwise 201 and the message is stored as sent |
| `Routes.JohnDoeAccepted` | server/routes.test.ts:22-37 | the test's reservation request passes validation on any day up to its date |
| `Routes.RequestSlotAgain` | server/routes.test.ts:46-50 | a valid request for a slot already booked is answered 409 and writes nothing |
| `Routes.SeededStore` | server/storage.ts:59-91 | after seeding a new store, the first facility bills 45.00 an hour and there are no reservations |
| `Routes.BookingScenario` | server/routes.test.ts:34-50 | the create-and-list and double-booking tests (201 for the first facility, one row listed, then 409 for the same request), on one seeded store, extended with the explorer price of 36.00, the single row left after the 409, and the deletions of `Routes.CancelBooking` |
| `Routes.CancelBooking` | server/routes.ts:127-141 | on a store holding one reservation: an unknown id is 404 and keeps the row, the reservation's id is 204 and removes it |
| `Routes.ContactScenario` | server/routes.test.ts:53-71 | the contact tests replayed: 201 with the message stored, then 400 with nothing more stored |

## Left out

- HTTP and database plumbing is not modelled: Express, drizzle, the Neon connection, JSON
  encoding, and every 500 answer for a failed database call.
- Every database call is asynchronous, and the constructor starts seeding without
  waiting for it. The model runs each operation to completion, one at a time, with no
  concurrent requests.
- The `users` table and its three operations are not modelled; no handler uses them.
- `getFacilities` and `getReservations` are plain reads of the store's fields, done in
  `Routes.ListFacilities` and `Routes.ListReservations`.
- `Storage.Store.ReservationsByDate` is modelled, but no handler calls it.
- Random UUIDs are replaced by a counter rendered in decimal. The model relies on freshness,
  and `Routes.CancelBooking` also on every id being a string of digits, which a UUID is not.
- Pricing in the service uses floating point: `parseFloat` of the rate, the product, then
  `toFixed(2)`. `Pricing.TotalCostCents` rounds the exact product to the nearest cent.
  Binary rounding of the floating-point product is not modelled.
- Dates in the service go through `new Date(…)`, so time zones and the other formats that
  `Date` accepts are not modelled. `Schema.TodayOrLater` accepts only `YYYY-MM-DD` and
  compares calendar days against a given today.
- `Schema.ParseIsoDate` accepts days 1 to 31 in every month and does not roll invalid days
  (31 February) over into the next month.
- `Schema.IsEmail` follows zod's e-mail pattern as a left-to-right scanner; it is not
  proved equal to zod's regular expression.
- Request fields have their declared types. A JSON value of the wrong type, a
  non-integer number, and numbers beyond the 32-bit `integer` column are not modelled.
- Column lengths and `decimal(10, 2)` precision limits are not modelled.
- String lengths are counted in Unicode scalar values, while zod's `min(10)` counts UTF-16
  code units. A phone number or message made of characters outside the Basic Multilingual
  Plane (emoji) is longer to the service than to the model, so the model can reject a
  phone or message that the service accepts. String order (`Text.LexLess`) compares
  characters instead of UTF-16 code units; the two agree on the ASCII slot times.
- `Storage.ReservationPatch` cannot change `id`, the primary key. Drizzle's rejection of
  an empty `set` is not modelled.
- `Routes.PatchReservation` does not model a non-string `status` value in the body;
  absent and unknown strings are the 400 cases.
