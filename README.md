# Appointment booking core, modelled in Dafny

This project models the core logic of an Express and MongoDB appointment-booking
system:

- **Availability.** Service providers publish weekly working hours. The
  availability handler turns the entry for a date's weekday into "HH:MM" slot
  start times, one every `duration` minutes. A slot is marked `disabled` when a
  pending or confirmed appointment holds that time.
- **Bookings.** Clients book a slot with a check-then-insert, so a slot that is
  already held gives 409. Providers update an appointment's status. Clients
  review completed appointments; the rating is upserted per (user, service).
- **Background jobs.** A sweeper finalizes past appointments: confirmed ones
  become completed and pending ones become cancelled. A cleaner deletes orphaned
  appointments, ratings and services.
- **Smaller pieces.**
  - The favorites toggle.
  - The client-side listing order: favorites first.
  - The card colour, derived from the category's `hsl()` colour.
  - The list of upcoming working dates on a service's page.
  - The Mongoose schemas: the status enum and its default, the rating bounds
    and unique index, the trimmed working-hour entries, and the category colour
    validator.

## How the store and the environment are modelled

- The database is a `Store.Db` object with one sequence field per collection.
  - A handler that writes is a `method` that updates these fields in place.
  - Its effect is specified by a step function on sequences (`BookStep`,
    `StatusUpdateStep`, `ReviewStep`, `CreateStep`, `UpdateStep`, `DeleteStep`,
    `FinalizeAll` and `CleanPass`). Lemmas prove the source's promises about
    these functions.
  - The favorites list is a field of the `Favorites.UserDoc` class.
  - The client listing is reordered in place in an `array`.
- Times of day are minutes 0..1439, written "HH:MM".
- A stored appointment date is a day number (days since 1970-01-01, the UTC
  midnight that `new Date("YYYY-MM-DD")` denotes). The date parser accepts
  month 1..12 and day 1..31 in any month, rolling over like V8 does.
- "Now" is a number of milliseconds, passed as a parameter.
- The weekday of a date is also a parameter. The application computes it in
  the server's local time zone while the stored date is UTC, so the model does
  not compute it.
- Fresh document identifiers (`newId`) are parameters.
- Identifiers are strings. A stored id is an ObjectId in its printed form, 24
  lower-case hexadecimal digits (`Ids.IsStoredId`).
  - A request id is checked with `isValid` (`Ids.IsValidObjectId`) where the
    route does so, and cast (`Ids.CastId`) where Mongoose casts it: in a query,
    in a stored field and in `unshift` onto the favorites array.
  - The cast lower-cases 24 hexadecimal digits and turns 12 ASCII characters
    into the hexadecimal text of their bytes. A string it cannot cast makes the
    query reject, which each route answers in its own way (400, 500, or no
    answer at all).
  - `ObjectId.prototype.equals(string)` reads a 12-character string as Latin-1
    bytes (`Ids.EqualsKey`), so it matches some strings the cast refuses.
- The review's `rating` is missing, a number, or a value the `Number` cast
  refuses (`Appointments.ScoreInput`).

## Behaviour of the source the model keeps

- `findOneAndUpdate` runs no validators.
  - The status update can store any text, including text outside the enum
    (`Status.Unlisted`).
  - It does no slot check, so reactivating a cancelled appointment can leave
    two active appointments in one slot (`ReactivationBreaksActiveUnique`).
  - The review upsert stores any score (`UpsertStoresOutOfBounds`).
  - A review without a score on a new pair stores a rating without one (`UpsertStoresNoScore`).
- The booking route checks the time loosely (`\d{2}:\d{2}`), so "99:99" is
  booked (`ImpossibleTimeBooked`).
- The update route reads a missing time as "00:00". An entry without
  `end_time` therefore gets a second, order error there (`MissingEndOnUpdate`).
  Both routes still accept exactly the same bodies (`AcceptedIff`).
- The availability loop never ends for a non-positive duration over a non-empty
  window (`Hangs`).
- An impossible calendar date whose day label matches an entry makes the
  appointment query reject without a handler (`Throws`).
- The upcoming-dates loop never ends when no working-hours day starts with a
  real weekday's three letters (`UpcomingDates` returns `None`).
- The cleaner deletes services last. One pass can therefore leave appointments
  that point at a service it has just deleted; a second pass removes them
  (`DanglingAfterOnePass`, `TwoPassesConsistent`).

## Model

| member | source | states |
|---|---|---|
| AppointmentModel.StatusOfText | models/Appointment.js:10-14 | the status read from a stored text prints back as that text, and it is one of the four enum values exactly when the text is in the enum |
| AppointmentModel.StatusOfTextCanonical | models/Appointment.js:10-14 | every status read from a stored text is canonical: a text in the enum is never kept as an unlisted text |
| AppointmentModel.CanonicalStatusTests | routes/api/appointments.js:61 | for a stored status the source's text tests agree with the status: "completed" exactly for `Completed`, "pending" or "confirmed" exactly for the active ones |
| AppointmentModel.StatusTextRoundTrip | models/Appointment.js:12 | every enum status, and every text outside the enum, reads back as the same status (text and status are inverse) |
| AppointmentModel.StatusOrDefault | models/Appointment.js:13 | a missing status is stored as pending; a given one is kept |
| AppointmentModel.TimeIsUnconstrained | models/Appointment.js:9 | the schema accepts any time text, such as "noon" and "99:99" |
| ServiceModel.StoredEntry | models/Service.js:5-9 | day, start and end of a working-hour entry are stored trimmed; an entry whose three trimmed strings are non-empty meets the schema |
| ServiceModel.HoursOrDefault | models/Service.js:20 | missing working hours are stored as an empty list; given ones are stored entry by entry, trimmed |
| ServiceModel.ExperienceOrDefault | models/Service.js:19 | missing experience is stored as 0; a given one is kept |
| RatingModel.InBounds | models/Rating.js:8 | a rating's score, when it has one, is from 1 to 5; kept by `Appointments.UpsertInBounds`, broken by `Appointments.UpsertStoresOutOfBounds` |
| RatingModel.OnePerPair | models/Rating.js:13 | the unique index: no two ratings share a (user, service) pair; kept by `Appointments.UpsertKeepsOnePerPair` |
| Text.TrimIdempotent | models/Service.js:6-8 | trimming a stored (already trimmed) string again changes nothing |
| Text.NatToDecimal | routes/client/services.js:34-35 | the numeral printed for a number is non-empty, has no leading zero unless it is "0", and reads back as that number |
| Text.StrLessTotal | routes/api/appointments.js:24 | the string order used to sort times relates any two different strings |
| Text.StrLessTransitive | routes/api/appointments.js:24 | the string order used to sort times is transitive |
| Ids.IsValidObjectId | routes/api/appointments.js:17 | `isValid` on a string: 24 hexadecimal digits of either case, or any 12 characters; its relation to the cast is `Ids.CastFailsOnlyBeyondAscii` |
| Ids.HexOfCodes | routes/api/favorites.js:20 | the hexadecimal text of a 12-character id's bytes has two lower-case digits per character, so it is a stored id |
| Ids.CastId | routes/api/appointments.js:59-60 | a request id that casts was accepted by `isValid`, and it casts to a stored id: 24 lower-case hexadecimal digits |
| Ids.EqualsKey | routes/api/favorites.js:14 | the id `equals` compares a string with agrees with the cast wherever the cast succeeds, and is a stored id |
| Ids.CastOfStoredId | routes/api/appointments.js:86-87 | a stored id casts to itself |
| Ids.CastIgnoresCase | routes/api/services.js:315 | hexadecimal ids that differ only in the case of their letters cast to the same stored id |
| Ids.CastFailsOnlyBeyondAscii | routes/api/services.js:309-315 | an id `isValid` accepts fails to cast exactly when it has 12 characters and one of them is not ASCII |
| Ids.HexOfCodesInjective | routes/api/favorites.js:14 | different 12-character ids give different stored ids |
| Ids.CastSameLength | routes/api/services.js:527 | two request ids of one length cast to the same document only when they are equal up to the case of a hexadecimal id's letters |
| Clock.MinutesOf | routes/api/services.js:424-426 | `sh * 60 + sm` of a `TIME_REGEX` time is a minute of the day, below 1440 |
| Clock.IsTime24 | routes/api/services.js:368 | `TIME_REGEX`: two-digit hours 00..23, a colon, two-digit minutes 00..59; its meaning is fixed by `Clock.FormatTime` and `Clock.ParseFormat` |
| Clock.IsLooseTime | routes/api/appointments.js:53 | the booking route's `\d{2}:\d{2}`: five characters, digits around a colon; compared with `TIME_REGEX` by `Clock.LooseTimeIsLooser` |
| Clock.FormatTime | routes/api/services.js:340 | the "HH:MM" text of a minute passes `TIME_REGEX` and reads back as that minute |
| Clock.ParseFormat | routes/api/services.js:368 | every `TIME_REGEX` time is the "HH:MM" text of its own minute (the other half of the round trip) |
| Clock.FormatInjective | routes/api/services.js:340 | different minutes give different "HH:MM" texts |
| Clock.FormatOrder | routes/api/services.js:338-343 | one minute is earlier than another exactly when its "HH:MM" text sorts before the other's |
| Clock.LooseTimeIsLooser | routes/api/appointments.js:53 | every `TIME_REGEX` time passes the booking route's `\d{2}:\d{2}` check, and "99:99" passes that check but not `TIME_REGEX` |
| Calendar.DateValue | routes/api/services.js:323 | only a string of the `\d{4}-\d{2}-\d{2}` shape denotes a date |
| Calendar.DaysFromCivilFacts | models/Appointment.js:8 | 1970-01-01 is day 0, and the day after a date is the next day number |
| Calendar.NamesOfWeekdays | routes/api/services.js:323-325 | each weekday's long name is one of the seven day names and its short name one of the seven short names; two weekdays with the same long or short name are the same day |
| Calendar.Weekday.Plus | routes/client/services.js:117-121 | the weekday `k` days later is `k` steps further round the week, modulo 7 |
| Availability.FindService | routes/api/services.js:315-319 | the service found has the given stored id; when none is found, no service has it (the handler passes the cast request id, so any case of a hexadecimal id finds the same service) |
| Availability.FirstEntry | routes/api/services.js:325 | the entry chosen is the first whose lower-cased day equals the date's weekday name; when none is chosen, no entry matches |
| Availability.ClockMinutes | routes/api/services.js:338-339 | a working-hours time that denotes an instant is at most the end of the day, minute 1440 |
| Availability.SlotStarts | routes/api/services.js:338-343 | the minutes the slot loop visits, ceil((end - start) / duration) of them from the start, `duration` apart; its relation to the loop is `Availability.SlotStartsSteps` |
| Availability.SlotStartsShape | routes/api/services.js:338-343 | for a non-empty window and a positive duration: the first slot is the start, each next slot is `duration` later, all are before the end, one more would not be, and the count is ceil((end - start) / duration) |
| Availability.StepBeforeEnd | routes/api/services.js:341 | the k-th step from the start is before the end exactly when k is below the slot count |
| Availability.SlotStartsSteps | routes/api/services.js:338-343 | the slot starts are exactly what stepping from the start by `duration`, while before the end, visits |
| Availability.DegenerateWindows | routes/api/services.js:338-343 | an empty window gives no slot; a duration at least the window's length gives the start alone |
| Availability.FormatSteps | routes/api/services.js:338-343 | the `while (t < end)` loop pushes, in order, the "HH:MM" text of every start it steps through |
| Availability.GenerateSlots | routes/api/services.js:336-343 | the generated texts are, one for one and in order, the "HH:MM" of the slot starts, all within the day |
| Availability.MarkBooked | routes/api/services.js:354-357 | one result per generated time in the same order, each disabled exactly when the time is in the booked set |
| Availability.GetAvailability | routes/api/services.js:301-362 | 400 exactly for an id `isValid` rejects or a date not of the `\d{4}-\d{2}-\d{2}` shape, before any lookup; a rejection when the valid id does not cast; 404 exactly when no service has the cast id; no slot when no entry matches the weekday; a rejection for an impossible date with a matching entry; a hang exactly for a non-positive duration over a non-empty window; otherwise the slots of the first matching entry in order, each disabled exactly when a pending or confirmed appointment of the cast service id and that date holds its time |
| Availability.SlotTimesAscending | routes/api/services.js:340-342 | the generated slot texts are strictly ascending and pairwise different |
| Availability.NineToFive | routes/api/services.js:338-343 | 09:00 to 17:00 with 60-minute slots gives eight slots, 09:00 to 16:00, without 17:00 |
| Availability.OneHourWindow | routes/api/services.js:338-343 | 09:00 to 10:00 with 60-minute slots gives 09:00 alone |
| Appointments.Book | routes/api/appointments.js:45-81 | the booking handler stores exactly what the booking step gives, the slot check and the stored service id using the cast id, and leaves every other collection unchanged |
| Appointments.BookStep | routes/api/appointments.js:51-76 | the booking step on the appointment sequence; its outcomes are stated by `Appointments.BookOutcomes` |
| Appointments.BookOutcomes | routes/api/appointments.js:51-76 | 400 exactly for input failing the id, date and time checks; 500 exactly for a valid id that does not cast or a well-shaped impossible date; 409 exactly when a pending or confirmed appointment holds the slot of the cast id; otherwise one new pending appointment of the requester, holding the cast service id, that date and time, is appended and nothing else changes |
| Appointments.BookedConforms | routes/api/appointments.js:68-74 | a created appointment meets the appointment schema |
| Appointments.BookKeepsActiveUnique | routes/api/appointments.js:59-74 | one booking keeps at most one active appointment per (service, date, time) |
| Appointments.BookingsKeepActiveUnique | routes/api/appointments.js:59-74 | any sequence of bookings alone keeps at most one active appointment per (service, date, time) |
| Appointments.InactiveDoNotBlock | routes/api/appointments.js:59-62 | cancelled or completed appointments in the slot of the cast id do not stop a valid booking |
| Appointments.BookingMatchesAvailability | routes/api/appointments.js:59-65 | a valid booking is refused with 409 exactly when the availability handler lists its time as taken for the cast id, and after it is created the time is listed as taken |
| Appointments.ImpossibleTimeBooked | routes/api/appointments.js:51-55 | "99:99" is booked on an empty ledger, for any service id that casts |
| Appointments.BookingIgnoresIdCase | routes/api/appointments.js:59-70 | a booking with any case of a stored service id's letters has the outcome of one with the stored id, so an upper-case id of a held slot gets 409 |
| Appointments.IndexOfId | routes/api/appointments.js:86-87 | the index found holds the first appointment with the given stored id; when none is found, no appointment has it (the status and review steps pass it the cast request id) |
| Appointments.UpdateStatus | routes/api/appointments.js:84-96 | the status handler stores exactly what the status step gives, which finds the appointment by the cast id, and leaves every other collection unchanged |
| Appointments.StatusUpdateStep | routes/api/appointments.js:86-94 | the status step on the appointment sequence; its outcomes are stated by `Appointments.StatusUpdateOnlyStatus` |
| Appointments.StatusUpdateOnlyStatus | routes/api/appointments.js:86-94 | 400 exactly when the id does not cast; 404 exactly when no appointment has the cast id; otherwise only the status of the first appointment with it changes, to the given text, and every other appointment is kept |
| Appointments.ReactivationBreaksActiveUnique | routes/api/appointments.js:86-90 | confirming a cancelled appointment, by its stored id, whose slot was booked again leaves two active appointments in one slot |
| Appointments.UpdateStoresAnyText | routes/api/appointments.js:86-90 | a status text outside the enum is stored as sent, and the document then breaks the schema enum |
| Appointments.RatingIndex | routes/api/appointments.js:116-117 | the index found holds a rating of the pair; when none is found, no rating has the pair |
| Appointments.Put | routes/api/appointments.js:116-120 | the upsert's write replaces the matched rating, or appends the new one when nothing matched |
| Appointments.PutKeepsOnePerPair | routes/api/appointments.js:116-120 | writing the pair's rating at the pair's place, or after all others when the pair had none, keeps one rating per pair |
| Appointments.PutKeepsOthers | routes/api/appointments.js:116-120 | such a write holds the new rating at the pair's place and keeps exactly the ratings of the other pairs |
| Appointments.Upsert | routes/api/appointments.js:116-120 | the rating upsert: the pair's rating is written with the score and trimmed comment sent, a missing one keeping the earlier value; stated by `Appointments.UpsertHoldsLatest` and `Appointments.UpsertKeepsOnePerPair` |
| Appointments.UpsertKeepsOnePerPair | routes/api/appointments.js:115-120 | the upsert keeps the unique (user, service) index |
| Appointments.UpsertHoldsLatest | routes/api/appointments.js:116-120 | after an upsert the pair's rating holds the score sent, or without one the earlier score (none for a new pair), and the latest comment, trimmed (the earlier comment, or none, when none is sent); the ratings of other pairs are kept and nothing else is added |
| Appointments.UpsertInBounds | routes/api/appointments.js:118 | the 1..5 bounds of all ratings are kept when the score sent, if any, is in 1..5 |
| Appointments.UpsertStoresOutOfBounds | routes/api/appointments.js:118 | a score of 9 is stored as sent |
| Appointments.UpsertStoresNoScore | routes/api/appointments.js:116-120 | a review without a score on a new pair stores a rating with no score, which breaks the schema |
| Appointments.ScoreValue | routes/api/appointments.js:118 | the score written is the number sent, and none exactly when no number is sent |
| Appointments.Review | routes/api/appointments.js:101-126 | the review handler stores exactly what the review step gives, for a score that is missing, a number or uncastable, and leaves every other collection unchanged |
| Appointments.ReviewStep | routes/api/appointments.js:103-124 | the review step on the rating sequence; its outcomes are stated by `Appointments.ReviewGate` |
| Appointments.ReviewGate | routes/api/appointments.js:103-124 | a review is saved exactly when the id casts, the score is not uncastable, the appointment with the cast id exists, the requester booked it, it is completed and its date is not after now, and then the ratings become the upsert of the sent score and comment for the appointment's service; 404 exactly when no appointment has the cast id; 403 exactly when it exists and one of the conditions fails; no rating is written unless it is saved |
| Appointments.ReviewKeepsOnePerPair | routes/api/appointments.js:115-120 | reviews keep one rating per (user, service) |
| Appointments.ListedBeforeTotal | routes/api/appointments.js:24 | the listing order, date descending then time descending, relates any two appointments |
| Appointments.ListedBeforeTransitive | routes/api/appointments.js:24 | the listing order is transitive |
| Appointments.ListFilter | routes/api/appointments.js:16-22 | with a stored id the filter keeps each appointment of that service as often as it is stored and drops every other one; without one it keeps every appointment as often as it is stored |
| Appointments.Insert | routes/api/appointments.js:24 | insertion adds the element once to the others |
| Appointments.InsertOrdered | routes/api/appointments.js:24 | inserting into an ordered listing keeps it ordered |
| Appointments.SortListing | routes/api/appointments.js:24 | the listing's sort is a permutation |
| Appointments.SortListingOrdered | routes/api/appointments.js:24 | the listing's sort is ordered by date descending, then time descending |
| Appointments.ListingFacts | routes/api/appointments.js:13-31 | a 500 exactly when the query names a valid id that does not cast; otherwise the listing holds each appointment of the cast service id (all of them for a missing or invalid id) exactly as often as it is stored, and no other, ordered by date descending and then time descending |
| Appointments.UnfilteredListing | routes/api/appointments.js:16-19 | without a valid service id the listing is a permutation of all appointments |
| Appointments.UnfilteredIsIdentity | routes/api/appointments.js:16-19 | without a valid service id the filter keeps every appointment in place |
| Finalize.UpdateMany | jobs/finalizeAppointments.js:7-10 | one `updateMany` sets the status of every appointment dated before now with the `from` status, and touches nothing else |
| Finalize.FinalizePastAppointments | jobs/finalizeAppointments.js:4-16 | the job applies the two transitions in order with one `now`, and touches only the appointments |
| Finalize.FinalizeAll | jobs/finalizeAppointments.js:7-15 | the two sweeps in order, confirmed to completed and then pending to cancelled; stated by `Finalize.FinalizeEffect` |
| Finalize.FinalizeEffect | jobs/finalizeAppointments.js:7-15 | confirmed and before now becomes completed; pending and before now becomes cancelled; everything else is unchanged, so pending never becomes completed |
| Finalize.OnlyStatusWritten | jobs/finalizeAppointments.js:7-15 | only the status field is written |
| Finalize.NoActiveInPast | jobs/finalizeAppointments.js:7-15 | after a run nothing dated before now is pending or confirmed |
| Finalize.FinalizeIdempotent | jobs/finalizeAppointments.js:7-15 | a second run with the same instant changes nothing |
| Finalize.TimeIgnored | jobs/finalizeAppointments.js:8-13 | appointments that differ only in their time text are swept alike |
| Finalize.FinalizeKeepsActiveUnique | jobs/finalizeAppointments.js:7-15 | the sweep keeps at most one active appointment per slot |
| Favorites.FirstIndex | routes/api/favorites.js:14 | `findIndex` gives the first occurrence of a stored id, or none exactly when it is absent (the toggle passes the key `equals` compares with) |
| Favorites.ToggleFavorite | routes/api/favorites.js:8-24 | an invalid id gives 400 and leaves the list; an id that casts toggles the cast id, so any case of a hexadecimal id removes a present favorite; a valid id that does not cast removes the favorite `equals` matches, or else makes `unshift` throw and leaves the list; the saved list is returned |
| Favorites.Toggle | routes/api/favorites.js:14-21 | removes the first occurrence of a present id or puts an absent one first; stated by `Favorites.ToggleShape` and `Favorites.ToggleCounts` |
| Favorites.ListFavorites | routes/api/favorites.js:27-29 | the list is returned as stored |
| Favorites.ToggleShape | routes/api/favorites.js:14-21 | a present id loses its first occurrence and the rest keep their order; an absent id goes to index 0, followed by the list as it was |
| Favorites.ToggleCounts | routes/api/favorites.js:14-21 | a toggle changes the length by exactly one and the count of the id by one, and no other id's count |
| Favorites.SpliceCounts | routes/api/favorites.js:17 | `splice(idx, 1)` removes exactly one occurrence of the element at `idx` |
| Favorites.ToggleTwiceRestores | routes/api/favorites.js:14-21 | toggling an absent id twice restores the list |
| Favorites.ToggleKeepsNoDuplicates | routes/api/favorites.js:14-21 | toggling never creates a duplicate |
| Favorites.ToggleFlips | routes/api/favorites.js:14-21 | on a list without duplicates a toggle flips whether the id is a favorite |
| Favorites.DuplicateStaysFavorite | routes/api/favorites.js:14-17 | with a duplicate, removing the first occurrence leaves the id a favorite |
| ClientServices.DigitRuns | routes/client/services.js:34 | `match(/\d+/g)` gives non-empty runs of digits |
| ClientServices.NumberText | routes/client/services.js:34 | `Number` then printing a run gives a numeral of the same value |
| ClientServices.CardBgColor | routes/client/services.js:33-36 | the card colour: no colour without a number, otherwise `hsl(` the first number `, ` the second (or "undefined") `% 95%)`; stated by `ClientServices.CardColourOfValid` and `ClientServices.CardColourIsValid` |
| ClientServices.RunsOfHslText | routes/client/services.js:34 | the numbers found in an `hsl()` notation are its hue, saturation and lightness |
| ClientServices.RunsOfValidColour | routes/client/services.js:34 | every accepted category colour is, once trimmed, an `hsl()` notation whose three numbers are the ones found |
| ClientServices.CardColourOfValid | routes/client/services.js:33-36 | for an accepted category colour, the card colour keeps its first two numbers as hue and saturation, sets lightness to 95%, and is itself an accepted colour |
| ClientServices.CardColourIsValid | routes/client/services.js:35 | `hsl(h, sat%, 95%)` is an accepted colour for any two numerals |
| ClientServices.HslTextIsValid | models/Category.js:14 | every `hsl()` notation with an allowed lightness is accepted, trimmed or not |
| ClientServices.SortListing | routes/client/services.js:39-41 | with favorites-only set the order is as received; otherwise the array becomes the favorites followed by the rest |
| ClientServices.FavoritesFirst | routes/client/services.js:39-41 | the favorites in their order, then the rest in theirs; stated by `ClientServices.FavoritesFirstPermutation`, `ClientServices.FavoritesBeforeOthers` and `ClientServices.FavoritesFirstStable` |
| ClientServices.FavoritesFirstPermutation | routes/client/services.js:40 | the reordering is a permutation |
| ClientServices.FavoritesBeforeOthers | routes/client/services.js:40 | every favorite precedes every non-favorite |
| ClientServices.FavoritesFirstStable | routes/client/services.js:40 | the order within the favorites and within the rest is kept |
| ClientServices.Contains | routes/client/services.js:108 | `some(f => f === id)` holds exactly when the id is in the list |
| ClientServices.IsFavorite | routes/client/services.js:107-109 | true exactly when a signed-in user's favorites contain the id |
| ClientServices.Prefix3 | routes/client/services.js:113 | `slice(0, 3)` is the start of the text, at most three characters long |
| ClientServices.WorkingDays | routes/client/services.js:112-114 | one short day name per working-hours entry |
| ClientServices.WeekCovers | routes/client/services.js:117-121 | when some entry's day is a real weekday, every seven consecutive days contain a working day |
| ClientServices.DatesPush | routes/client/services.js:118-119 | a working day examined is pushed and the dates stay exactly the working days so far, ascending |
| ClientServices.DatesSkip | routes/client/services.js:118-120 | a non-working day examined adds nothing |
| ClientServices.ScanPush | routes/client/services.js:117-121 | a turn on a working day keeps the loop's invariant and brings it closer to its end |
| ClientServices.ScanSkip | routes/client/services.js:117-121 | a turn on another day does too, when some entry's day is a real weekday |
| ClientServices.ScanDates | routes/client/services.js:115-122 | the loop gives one date per entry: exactly the working days from tomorrow up to the last date, strictly increasing |
| ClientServices.UpcomingDates | routes/client/services.js:112-122 | the loop never ends exactly for a non-empty schedule with no real weekday; otherwise one date per entry, exactly the working days from tomorrow up to the last one, strictly increasing and all after today |
| ClientServices.NoHoursNoDates | routes/client/services.js:112-117 | an empty schedule gives no dates |
| CategoryModel.HslTextMatches | models/Category.js:14 | an `hsl()` notation built from digit runs and white-space pieces matches the validator exactly when its lightness is allowed |
| CategoryModel.MatchesHsl | models/Category.js:14 | the colour validator's regular expression on a string; characterised by `CategoryModel.HslTextMatches` and `CategoryModel.MatchDecomposes` |
| CategoryModel.IsValidColor | models/Category.js:12-14 | a category colour is accepted when, trimmed, it matches the validator's regular expression |
| CategoryModel.MatchDecomposes | models/Category.js:14 | every string the validator matches is such a notation, with an allowed lightness |
| CategoryModel.LightnessIsRange | models/Category.js:14 | the lightness is allowed exactly when it is a numeral without leading zero from 65 to 100 |
| CategoryModel.SeedColourAccepted | models/Category.js:14 | `hsl(200, 50%, 70%)` is accepted |
| CategoryModel.DarkColourRejected | models/Category.js:14 | `hsl(0, 60%, 64%)` is rejected |
| CleanUp.ServiceIds | jobs/cleanUp.js:15 | `Service.distinct('_id')` lists the service ids in order |
| CleanUp.ServiceIdsOf | jobs/cleanUp.js:15 | an id is listed exactly when some service has it |
| CleanUp.KeepAppointments | jobs/cleanUp.js:12-17 | an appointment is kept exactly when its user and its service exist |
| CleanUp.KeepRatings | jobs/cleanUp.js:20-25 | a rating is kept exactly when its user and its service exist |
| CleanUp.KeepServices | jobs/cleanUp.js:28-30 | a service is kept exactly when its category exists |
| CleanUp.DeleteOrphanAppointments | jobs/cleanUp.js:12-17 | step 1 leaves the kept appointments and touches nothing else |
| CleanUp.DeleteOrphanRatings | jobs/cleanUp.js:20-25 | step 2 leaves the kept ratings and touches nothing else |
| CleanUp.DeleteOrphanServices | jobs/cleanUp.js:28-30 | step 3 leaves the kept services and touches nothing else |
| CleanUp.Cleaner | jobs/cleanUp.js:9-38 | the cleaner is the three steps in order, each seeing the store the previous step left |
| CleanUp.CleanPass | jobs/cleanUp.js:12-30 | one pass of the cleaner on the store's contents; stated by `CleanUp.CleanPassEffect` |
| CleanUp.CleanPassEffect | jobs/cleanUp.js:12-30 | after one pass exactly the appointments and ratings whose user and service existed, and the services whose category exists, remain; users and categories are untouched |
| CleanUp.KeptServiceIds | jobs/cleanUp.js:28-30 | a service kept by step 3 existed when steps 1 and 2 looked |
| CleanUp.DanglingAfterOnePass | jobs/cleanUp.js:12-30 | one pass can leave an appointment pointing at a service it has just deleted; the second pass removes it and leaves a consistent store |
| CleanUp.TwoPassesConsistent | jobs/cleanUp.js:12-30 | two passes without other writes leave a consistent store |
| CleanUp.ConsistentUnchanged | jobs/cleanUp.js:12-30 | on a consistent store a pass deletes nothing |
| ServiceRoutes.ColonIndex | routes/api/services.js:491 | the index found holds the first ':'; when none is found, the text has no ':' |
| ServiceRoutes.UpToColon | routes/api/services.js:491 | the first piece of `split(':')` is the start of the text and holds no ':' |
| ServiceRoutes.PushMember | routes/api/services.js:387-389 | a check adds its error exactly when it fails, and nothing else |
| ServiceRoutes.FieldChecksMembers | routes/api/services.js:387-409 | each field error is in the list exactly when its check fails |
| ServiceRoutes.ChecksOf | routes/api/services.js:411-432 | one outcome of the four checks per working-hours element, in order |
| ServiceRoutes.PushEntryMember | routes/api/services.js:411-432 | an element adds exactly the errors of the checks it fails, each naming its index, and none exactly when it passes all four |
| ServiceRoutes.CheckFields | routes/api/services.js:387-409 | the field checks push exactly the field errors |
| ServiceRoutes.CheckEntry | routes/api/services.js:412-431 | the `forEach` body pushes exactly the errors of the element's failed checks |
| ServiceRoutes.CheckEntries | routes/api/services.js:411-432 | the `forEach` pushes, element by element, the errors of every element |
| ServiceRoutes.Validate | routes/api/services.js:384-434 | the inline checks give exactly the error list of the body |
| ServiceRoutes.PushHoursMembers | routes/api/services.js:411-432 | an entry error is in the list exactly when the element it names fails that check |
| ServiceRoutes.PushHoursEmpty | routes/api/services.js:411-432 | the elements add no error exactly when each passes its four checks |
| ServiceRoutes.FieldErrorsNotEntries | routes/api/services.js:387-409 | no field error names an element |
| ServiceRoutes.FieldErrorsEmpty | routes/api/services.js:387-409 | the field checks push nothing exactly when all of them pass |
| ServiceRoutes.FieldErrorsMembers | routes/api/services.js:387-409 | each field error, of name, category, price, duration, experience and working-hours type, is pushed exactly when its check fails |
| ServiceRoutes.FieldErrorsComplete | routes/api/services.js:384-439 | the answered list holds each field error exactly when its field fails the check |
| ServiceRoutes.EntryErrorsComplete | routes/api/services.js:411-432 | the answered list holds an entry error exactly when the element at its index fails that check |
| ServiceRoutes.SplitMinutesOfTime | routes/api/services.js:424-425 | for a `TIME_REGEX` time, `split(':').map(Number)` gives its hours and minutes |
| ServiceRoutes.MidnightDefault | routes/api/services.js:491-492 | the update's default "00:00" is minute 0, the same as a missing time |
| ServiceRoutes.LooseMinutesOfTime | routes/api/services.js:491-493 | for a `TIME_REGEX` time the update's reading gives its minute |
| ServiceRoutes.OrderChecksAgree | routes/api/services.js:423-431 | with both times well formed, the create and update order checks agree |
| ServiceRoutes.EntryPassesIff | routes/api/services.js:411-432 | an element passes its checks, under either route, exactly when its day is one of `DAYS`, both times pass `TIME_REGEX` and start is strictly before end |
| ServiceRoutes.AcceptedIff | routes/api/services.js:437-439 | either route answers without errors exactly when every check passes, so create and update accept the same bodies |
| ServiceRoutes.MissingEndOnUpdate | routes/api/services.js:488-494 | an element without `end_time` gets the end error alone on create, and the end and order errors on update |
| ServiceRoutes.StoredHours | routes/api/services.js:452 | the working hours are stored element by element |
| ServiceRoutes.OwnedIndex | routes/api/services.js:505 | the index found holds the first service with the given stored id owned by the requester; when none is found, no service matches (update and delete pass it the cast request id) |
| ServiceRoutes.CreateService | routes/api/services.js:384-458 | the create handler stores exactly what the create step gives, with the cast category id, and touches only the services |
| ServiceRoutes.CreateStep | routes/api/services.js:437-457 | the create step on the service sequence; its outcomes are stated by `ServiceRoutes.CreateOutcomes` |
| ServiceRoutes.UpdateService | routes/api/services.js:464-521 | the update handler stores exactly what the update step gives, looking the service up by the cast id, and touches only the services |
| ServiceRoutes.UpdateStep | routes/api/services.js:464-519 | the update step on the service sequence; its outcomes are stated by `ServiceRoutes.UpdateOwnerScoped` |
| ServiceRoutes.ApplyUpdate | routes/api/services.js:503-516 | the update's store part: 500 when the id or the category id does not cast, 404 when no service of the requester has the cast id, otherwise that service is replaced |
| ServiceRoutes.DeleteService | routes/api/services.js:524-536 | the delete handler stores exactly what the delete step gives, looking the service up by the cast id, and touches only the services |
| ServiceRoutes.DeleteStep | routes/api/services.js:527-533 | the delete step on the service sequence; its outcomes are stated by `ServiceRoutes.DeleteOwnerScoped` |
| ServiceRoutes.AppendService | routes/api/services.js:443-453 | `Service.create` appends the document |
| ServiceRoutes.ReplaceService | routes/api/services.js:504-514 | the update's write replaces one document |
| ServiceRoutes.RemoveService | routes/api/services.js:527 | the delete's write removes one document, the others keeping their order |
| ServiceRoutes.CreateOutcomes | routes/api/services.js:437-457 | 400 with the error list, and nothing written, exactly when a check fails; 500, with nothing written, exactly when the accepted category id does not cast; otherwise one service owned by the requester is appended, with the trimmed name, the cast category id, the price and the duration |
| ServiceRoutes.AcceptedEntryStored | routes/api/services.js:452 | an accepted element is stored as sent and meets the entry schema |
| ServiceRoutes.AcceptedNameTrimmed | routes/api/services.js:445 | an accepted name is stored trimmed and non-empty |
| ServiceRoutes.CreatedConforms | routes/api/services.js:443-453 | a service created from an accepted body with a cast category id meets the service schema |
| ServiceRoutes.UpdateOwnedScoped | routes/api/services.js:504-519 | the store part of an update gives 500 exactly when the id or the category id does not cast; otherwise it changes at most the first service with the cast id the requester owns, keeping its id and owner and storing the cast category id; 404, with nothing changed, exactly when there is none |
| ServiceRoutes.UpdateOwnerScoped | routes/api/services.js:499-519 | update writes nothing unless every check passes and both ids cast (500 exactly when one does not); then it changes at most one service, the requester's, and 404 exactly when the requester owns no service with the cast id; nobody else's service changes |
| ServiceRoutes.DeleteOwnerScoped | routes/api/services.js:527-533 | delete gives 500 exactly when the id does not cast; otherwise it removes at most the first service with the cast id the requester owns; 404, with nothing changed, exactly when there is none; nobody else's service is removed |
| ServiceRoutes.OwnerRoutesIgnoreIdCase | routes/api/services.js:504-528 | an update or a delete with any case of a stored id's letters has the outcome of one with the stored id |

## Left out

- Express plumbing (request parsing, JSON responses, rendering, flash messages) and the `populate` projection: only handler outcomes and store effects are modelled.
- Response messages and the exact text of the validation errors: errors are constructors carrying the element's index.
- JavaScript `Date` parsing of times, `toTimeString`, time zones and daylight saving.
  - A slot time is `FormatTime` of its minute of the day.
  - The weekday of a date is a parameter.
  - "Now" is a parameter, and the `setInterval` timer that runs the sweeper is not part of this model.
- Body values of unexpected JSON types are modelled only where a field says so; elsewhere a value is missing or of the expected type.
  - The service body's numbers are missing (null counts as missing), a number, or "not a number"; `Number()` of a string is modelled for digit strings, anything else being NaN.
  - The review's rating is missing, a number, or uncastable; a null rating or comment is treated as missing, although Mongoose would write the null.
  - The review's comment, the status text, the booking's `date` and `time` and the request ids are strings; an array or an object in their place is not part of this model.
  - A `working_hours` element that is not an object is not part of this model.
- Number precision: price and experience are reals and duration an integer; floating point is not modelled.
- ClientServices.NumberText: prints the exact numeral of a digit run. `String(Number(d))` rounds a run above `Number.MAX_SAFE_INTEGER` to a double and prints exponent form from 10^21 on; those cases are not modelled.
- ClientServices.CardColourOfValid: stated only for colours the category validator accepts whose numbers are safe integers. For a hue of 10^21 or more the card colour the browser builds is in exponent form and the validator would refuse it. The function also models the other inputs (no number, or a single one) but nothing is proved about them.
- Ids.IsValidObjectId: follows the `bson` release whose `isValid` accepts any 12-character string; later releases, which accept no string but 24 hexadecimal digits, are not modelled.
- Stored ids are assumed to be in their printed form (`Ids.IsStoredId`). The store's own ids come from parameters, and lemmas that look an appointment up by its own id require that form.
- The status of a stored appointment is the status its text denotes (`AppointmentModel.StatusOfTextCanonical`), so the source's string tests and the model's tests on constructors agree (`AppointmentModel.CanonicalStatusTests`).
- `ToLower`: lower-cases ASCII letters only; Unicode case mapping is not modelled.
- The description and location fields of a service, and the database errors of `Service.create` other than a category id that does not cast, are not part of this model.
- The check-then-insert race of concurrent bookings: the model is sequential, so only the sequential invariant `ActiveUnique` is stated.
- Average ratings, authentication, uploads, category management and the seed script are not part of this model.
- Appointments.ListingFacts: states the order only up to ties; the order among appointments with equal date and time is left open, as the database promises none.
- ClientServices.UpcomingDates: dates are day offsets from today, not `Date` objects; a loop that never ends is the outcome `None`.
- Availability.GetAvailability: an uncaught rejection and a loop that never ends are the outcomes `Throws` and `Hangs`; what the client then sees is not modelled.
