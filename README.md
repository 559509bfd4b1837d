# nextsched core, modelled in Dafny

nextsched is a booking web application: buyers book one-hour appointments
with sellers, and a seller's Google Calendar can say when the seller is busy.
This project models the few parts of it that are logic rather than glue, and
proves what they promise:

- **The daily slot filter** of the calendar service (`google_calendar.dfy`,
  module `GoogleCalendar`). For one date it walks the hours 9 to 16. For each
  hour it renders the slot's start and end as `<date>T<HH>:00:00Z`. It keeps
  the slot only when no busy interval overlaps it under the strict test
  `slotStart < busyEnd && slotEnd > busyStart`. The service is a class that
  holds its access token. `GetAvailableSlots` is a method with a loop, proved
  against the specification function `AvailableHours`. Lemmas prove these
  facts about `AvailableHours`:
  - soundness and completeness;
  - strict ordering;
  - the bound of eight slots;
  - the no-busy-data case;
  - the boundary case where an interval only touches a slot.
  Slot strings are modelled character by character, including
  `padStart(2, "0")`. Reading a slot string back as a time
  (`new Date(...).getTime()`) is proved to give its hour.
- **The appointments page** (`appointments_page.dfy`, module
  `AppointmentsPage`). It covers:
  - the role-based choice between `seller_id` and `buyer_id`;
  - the split of the query's rows into upcoming (`start_time > now`) and
    past (`start_time <= now`), proved exact, order-preserving, and for
    rows in start order a clean cut (past followed by upcoming is the
    whole list);
  - the choice of which party a card names.
- **The user header** (`user_header.dfy`, module `UserHeader`). It covers:
  - the avatar initials, built from the name's space-separated words or
    else from the e-mail address, with the fallback `"U"`;
  - the `"User"` and `"user"` fallbacks for the displayed name and role;
  - the seller-only Calendar Settings entry.
- `profiles.dfy` (module `Profiles`) holds the `users` row both pages read.
  `wrappers.dfy` (module `Wrappers`) holds a small Option type for nullable
  values.

Times are integers. In the calendar module they are milliseconds since
midnight UTC of the requested date. On the appointments page they are
milliseconds since the epoch. The clock reading `now` is a parameter.

One behaviour of the header deserves notice; the lemma
`UserHeader.InitialsEmptyIff` proves it. The expression on line 37 reads
`name ? … : (email … || "U")`, so the `"U"` fallback applies only to the
e-mail branch. A name made of spaces alone (for example `" "`) yields empty
initials.

## Model

| member | source | states |
|---|---|---|
| `GoogleCalendar.GoogleCalendarService.constructor` | lib/google-calendar.ts:28-30 | the service keeps the access token it was built with |
| `GoogleCalendar.GoogleCalendarService.GetAvailableSlots` | lib/google-calendar.ts:32-84 | a failed free/busy request gives no slots; otherwise the result is, in order, the slot of each available hour, where missing busy data counts as no busy time |
| `GoogleCalendar.BusyTimes` | lib/google-calendar.ts:53 | absent `calendars.primary.busy` means an empty busy list; present data is used as it is |
| `GoogleCalendar.ToDecimal` | lib/google-calendar.ts:61 | `toString()` of an hour: decimal digits that read back as the number itself, with a leading zero only in "0" |
| `GoogleCalendar.PadStart` | lib/google-calendar.ts:61-62 | `padStart`: the result has the requested width or more, ends with the input, and is filled on the left |
| `GoogleCalendar.HourText` | lib/google-calendar.ts:61-62 | the hour field is exactly two digits whose value is the hour |
| `GoogleCalendar.HourTextIsPaddedDecimal` | lib/google-calendar.ts:61-62 | that two-digit field is `hour.toString().padStart(2, "0")`, so hour 9 is written "09" |
| `GoogleCalendar.ParseSlotTime` | lib/google-calendar.ts:66-69 | a slot timestamp that reads back gives a time within the day (0 to 24 hours) |
| `GoogleCalendar.SlotTextRoundTrip` | lib/google-calendar.ts:61-69 | reading a rendered slot timestamp back yields exactly its hour times 3,600,000 ms |
| `GoogleCalendar.SlotLastsOneHour` | lib/google-calendar.ts:61-62 | every slot's start reads back as hour h and its end as hour h+1, exactly one hour apart |
| `GoogleCalendar.AnyOverlap` | lib/google-calendar.ts:65-72 | `busyTimes.some(...)` is true iff some busy interval satisfies the strict overlap test |
| `GoogleCalendar.SlotAvailableIffHourFree` | lib/google-calendar.ts:65-72 | the test on the slot's strings keeps a slot iff no busy interval overlaps its hour |
| `GoogleCalendar.FreeHoursMembers` | lib/google-calendar.ts:60-76 | after the loop reaches `hi`, an hour has been kept iff it lies in `lo..hi-1` and is free |
| `GoogleCalendar.AvailableHoursExact` | lib/google-calendar.ts:60-77 | soundness and completeness: hour h is offered iff 9 <= h < 17 and no busy interval overlaps h..h+1 |
| `GoogleCalendar.AvailableHoursOrdered` | lib/google-calendar.ts:60-77 | the offered hours strictly increase and number at most 8 |
| `GoogleCalendar.NoBusyTimeAllSlots` | lib/google-calendar.ts:53-77 | with no busy time all eight hours 9..16 are offered, in order |
| `GoogleCalendar.TouchingBusyKeepsSlot` | lib/google-calendar.ts:71 | adding an interval that only touches a slot's boundary (end == slot start or start == slot end) never changes whether that slot is offered |
| `GoogleCalendar.OverlappingBusyRemovesSlot` | lib/google-calendar.ts:71-76 | one interval that strictly overlaps a slot removes it |
| `AppointmentsPage.QuerySide` | app/appointments/page.tsx:26-27 | the query filters on the seller column iff the role is exactly "seller", otherwise on the buyer column |
| `AppointmentsPage.QueryMembers` | app/appointments/page.tsx:17-27 | a seller sees exactly the rows whose `seller_id` is theirs; any other role exactly the rows whose `buyer_id` is theirs; each such row as often as the table holds it |
| `AppointmentsPage.QueryKeepsOrder` | app/appointments/page.tsx:24-27 | the filtered rows keep the database's order (a subsequence of the table) |
| `AppointmentsPage.PartitionMembers` | app/appointments/page.tsx:31-33 | upcoming iff start time > now, past iff start time <= now; no rows when the query returned none |
| `AppointmentsPage.PartitionIsExact` | app/appointments/page.tsx:32-33 | the two lists together hold every row exactly as often as the query returned it, and the counts sum to the total |
| `AppointmentsPage.PartitionKeepsOrder` | app/appointments/page.tsx:24-33 | both lists keep the input's relative order; on rows in start order both stay sorted and past followed by upcoming is the whole list |
| `AppointmentsPage.OtherPartyIsCounterpart` | app/appointments/page.tsx:101 | each card names the party on the side opposite the column the viewer was matched on: the buyer for a seller, the seller otherwise |
| `AppointmentsPage.CalendarSettingsIffSellerQuery` | components/user-header.tsx:72 | the Calendar Settings entry appears iff the appointments page would query by `seller_id` |
| `UserHeader.UpperString` | components/user-header.tsx:37-39 | upper-casing keeps the length and maps each character |
| `UserHeader.Split` | components/user-header.tsx:37 | `split(" ")` always yields at least one word |
| `UserHeader.JoinSplit` | components/user-header.tsx:37 | joining the split words with a space gives the name back |
| `UserHeader.SplitShape` | components/user-header.tsx:37 | there is one word more than there are spaces, and no word contains a space |
| `UserHeader.FirstCharsOfSplit` | components/user-header.tsx:37 | the first characters of the words, empty words giving nothing, are exactly the name's word-start characters, in order |
| `UserHeader.FirstCharsCount` | components/user-header.tsx:37 | one initial per non-empty word, so never more initials than words |
| `UserHeader.UserInitials` | components/user-header.tsx:37-39 | non-empty name: the upper-cased word starts; otherwise the first min(2, length) characters of the e-mail, upper-cased; "U" with no usable e-mail |
| `UserHeader.InitialsAtMostOnePerWord` | components/user-header.tsx:37 | initials from a name number exactly the non-empty words, at most the number of words |
| `UserHeader.InitialsEmptyIff` | components/user-header.tsx:37-39 | the initials are empty iff the name is present, non-empty and made only of spaces |
| `UserHeader.DisplayName` | components/user-header.tsx:56 | the shown name is the profile's name when non-empty, otherwise "User"; never empty |
| `UserHeader.DisplayRole` | components/user-header.tsx:62 | the shown role is the profile's role when non-empty, otherwise "user"; never empty |
| `UserHeader.ShowsCalendarSettings` | components/user-header.tsx:72 | the Calendar Settings entry is shown iff the profile exists and its role is exactly "seller" |
| `UserHeader.CalendarSettingsShowsSellerRole` | components/user-header.tsx:62-72 | whoever sees the Calendar Settings entry has "seller" as their displayed role |

## Left out

- The HTTP calls are not modelled: the free/busy request, event creation (`createEvent`) and token refresh (`refreshGoogleToken`), lib/google-calendar.ts:35-50 and 86-146. They are network I/O. Their outcome enters `GetAvailableSlots` as the parameter `FreeBusyResponse`. Every failure that ends in the `catch` block is `RequestFailed`.
- `GoogleCalendar.BusyInterval`: busy intervals arrive already read as integer milliseconds. A busy entry with an unparsable `start` or `end` in JavaScript gives NaN, which never overlaps. The model has no such value.
- `GoogleCalendar.ParseSlotTime`: reads only the timestamp shape the service writes (`<date>T<HH>:00:00Z`, hour up to 24), measured from midnight of `date`. General ISO-8601 parsing and the validity of `date` itself are outside the model.
- `AppointmentsPage.Appointment`: start times are integers. An unparsable `start_time` (NaN) would fall into neither list in JavaScript. The model has no such value.
- Which rows the database returns and how it orders them (`order("start_time", { ascending: true })`) belong to the database service. The table is an input in the database's order. The lemmas prove that the filters keep that order.
- Supabase auth and profile lookups are not modelled. They are external service calls. The appointments page redirects to the login page when there is no user or no profile (app/appointments/page.tsx:7-15); that redirect is not modelled. The header renders nothing when there is no user (components/user-header.tsx:26-28); that case is not modelled either. When the header's profile lookup finds nothing, the header carries on with a null profile, which the model covers as `None`.
- Locale date and time formatting on the cards, the JSX markup and the styling are not modelled. They are rendering.
- `UserHeader.UserInitials`: JavaScript indexes strings by UTF-16 code units, so `n[0]` and `slice(0, 2)` can split a character outside the Basic Multilingual Plane and keep a lone surrogate. The model's characters are whole Unicode scalar values, so it keeps the whole character instead.
- `UserHeader.Upper`: upper-cases ASCII letters only. JavaScript's Unicode `toUpperCase` can change other characters and even the length of a string, and the model does not follow that.
- The availability API route (app/api/calendar/availability/[sellerId]/routes.ts) is not part of this model. It filters out already-booked appointments and supplies default slots.
