# Get Plump booking backend — a Dafny model

The Get Plump booking backend sits between a spa's booking front end and
the Boulevard platform. Boulevard has two GraphQL endpoints: an admin API
and a client-scoped API. The backend has two parts:

- An Express server (`server.js`) with four routes:
  - client lookup by email or phone;
  - issue of a scoped client token, which is an HMAC signature followed by its payload;
  - a booking route that dispatches five operations to the client API;
  - a health check.
- Seven serverless handlers (`api/*.js`), five of which are modelled:
  - month availability, which groups the available slots by date;
  - client lookup;
  - booking creation, which creates the client first when needed;
  - membership;
  - appointment history.

The model reduces each request to an `Exchange`: the calls made to the
platform, in order, and the response given. The platform is a parameter
`upstream: Call -> Reply`. A reply is either a rejected fetch or an answer
with `ok`, a status, an `errors` list and a typed `data` payload. Every
handler is a function or method of the request and `upstream`.

Modules, in dependency order:

- `Js` (`js.dfy`): the parts of JavaScript the handlers rely on.
  - Optional JSON fields and their truthiness.
  - Template rendering, with "undefined" for an absent value.
  - Thrown failures.
  - `startsWith`, `indexOf` and `replace`.
  - Integer `toString`, and a decimal reader as its partner.
- `Encoding` (`encoding.dfy`): UTF-8 encoding of strings, `Buffer`
  base64 encoding, and a strict base64 decoder proved to invert it.
- `Boulevard` (`boulevard.dfy`):
  - the platform's data (clients, appointments, memberships, carts, slots);
  - the operations sent and the two endpoints;
  - the `Basic` authorization header.
- `Http` (`http.dfy`):
  - response bodies;
  - the method gate every `api/` handler starts with;
  - bearer token extraction;
  - the handlers' common treatment of a reply's `errors`.
- `ClientToken` (`token.dfy`): `generateClientToken`. The clock reading,
  secret decoding and HMAC-SHA256 are parameters.
- `Server` (`server.dfy`):
  - the server's two Boulevard call helpers, as `Invoke`;
  - the lookup, token and booking routes.
- `Calendar` (`calendar.dfy`): the parts of `Date` used for a month range.
  - `new Date(y, m, 1)` and `new Date(y, m, 0)`, with the two-digit year
    rule and month carry.
  - The limit on representable dates.
  - The date part of `toISOString()`, with a reader as its partner.
- `Availability` (`availability.dfy`): `api/get-availability.js`.
  - The grouping loop is the method `GroupAvailable`.
  - It is proved equal to a recursive fold, `Accumulated`.
  - The fold is proved equal to a declarative description, `Described`:
    one bucket per date, in slot order.
- `LookupClient`, `CreateBooking`, `ClientMembership` and
  `AppointmentHistory`: the other four `api/` handlers.

Two kinds of failure are told apart:

- The server's call helpers throw on a non-`ok` status and on any GraphQL
  error. The route's `catch` turns the throw into a 500 with `details`.
- The `api/` handlers never look at `ok`. They answer 400 with the first
  error message, and 500 "Internal server error" when the fetch fails or
  the data does not have the expected shape. In JavaScript that last case
  is a TypeError from reading a property of `undefined`.

## Model

| member | source | states |
|---|---|---|
| Js.IndexOf | api/client-membership.js:22 | the result is the first position where the pattern occurs; None exactly when it occurs nowhere |
| Js.Truthy | server.js:103 | `undefined`, `null` and "" are falsy, any other string truthy; `Server.SearchQueryShape` (empty exactly when both fields are falsy), `Server.GenerateTokenRoute` (400 for a falsy id) and `CreateBooking.NeedsClient` state the tests at server.js:53, 103 and 153 and api/create-booking.js:32 |
| Js.Render | api/create-booking.js:105 | `${v}` in a template: the value itself, or "undefined" when absent; `CreateBooking.NotesShape` states the notes built from it and `Boulevard.EnvApiKey` an unset variable read at api/get-availability.js:43 |
| Js.StartsWith | server.js:238 | `startsWith`: the string begins with the prefix; `Js.ReplacePrefix`, `Server.LocationUrn` and `Http.BearerToken` state the uses at server.js:238 and api/client-membership.js:18 |
| Js.ReplacePrefix | api/client-membership.js:22 | on a string starting with the pattern, `replace(pattern, '')` removes exactly that prefix, and the prefix plus the rest gives the string back |
| Js.ReplaceFirst | api/client-membership.js:22 | `replace` with a string pattern changes only the first occurrence; `Js.ReplacePrefix` states what it does to a header starting with the pattern |
| Js.NatToString | api/get-availability.js:86 | the rendering is non-empty, all digits, without a leading zero |
| Js.ParseNatToString | api/get-availability.js:86 | reading the rendering of n back as decimal gives n (by induction on n) |
| Js.IntToStringInjective | server.js:84 | distinct integers render to distinct strings, negatives included |
| Js.IntToString | server.js:84 | integer `toString`, a minus sign before the digits of a negative; `Js.IntToStringInjective` and `ClientToken.TimestampIsWholeSeconds` state its properties |
| Js.ParsePadDecimal | api/get-availability.js:24-25 | a zero-padded rendering reads back as the same number |
| Js.PadDecimalLength | api/get-availability.js:24-25 | a number below 10^w padded to width w has exactly w digits |
| Encoding.Utf8Char | server.js:30 | one to four bytes per character; one byte, the code itself, exactly for ASCII |
| Encoding.Utf8Encode | server.js:30 | `Buffer.from(string)`: between one and four bytes per character; `Encoding.Utf8Concat` and `Encoding.Utf8Ascii` state how it composes |
| Encoding.Utf8Concat | server.js:54 | the encoding of a concatenation is the concatenation of the encodings |
| Encoding.Base64Char | server.js:89 | each digit character maps back to its six-bit value, so the alphabet is injective |
| Encoding.Base64Encode | server.js:89 | the output has 4 characters per started group of 3 bytes, all from the base64 alphabet or `=` |
| Encoding.Base64RoundTrip | server.js:30 | decoding the encoding of any byte sequence gives back the bytes (by induction on the groups) |
| Encoding.Base64Of32Bytes | server.js:88-89 | a 32-byte digest encodes to 44 characters |
| Boulevard.BasicAuthDecodes | server.js:30 | the `Basic` header starts with "Basic " and decodes to exactly the UTF-8 bytes of `user:password` |
| Boulevard.BasicAuth | server.js:53-55 | the `Basic` header of `user:password`; `Boulevard.BasicAuthDecodes` states what it carries |
| Boulevard.KeyOnlyAuth | server.js:30 | the header with the API key and an empty password; `Boulevard.BasicAuthDecodes` with an empty password states that it decodes to the key and a colon |
| Boulevard.EnvApiKey | api/get-availability.js:43 | the API key as read from the environment, "undefined" when unset |
| Boulevard.Nodes | server.js:206 | `edges.map(edge => edge.node)`: same length, and each node in order |
| Boulevard.NodesConcat | server.js:206 | the node list of joined edge lists is the joined node lists |
| Boulevard.FirstNode | server.js:230-231 | None exactly when there are no edges, otherwise the first edge's node |
| Boulevard.FirstNodeIsHead | api/lookup-client.js:63-64 | the first node is the head of the node list |
| Boulevard.EmailClause | server.js:108 | `email = "<e>"`; `Server.SearchQueryShape` states that a search with an email starts with it, and `LookupClient.FilterAgainstServer` that both sources build it alike (api/lookup-client.js:26) |
| Boulevard.PhoneClause | server.js:109 | `mobilePhone = "<p>"`; `Server.SearchQueryShape` states that a search with a phone ends with it, and `LookupClient.FilterAgainstServer` that both sources build it alike (api/lookup-client.js:26) |
| Http.MethodGate | api/get-availability.js:9-15 | OPTIONS gives an empty 200, any verb other than POST gives 405, and only POST continues |
| Http.BearerToken | api/client-membership.js:17-22 | a token exists exactly when the header is present and starts with "Bearer ", and the header is "Bearer " followed by the token |
| Http.ReplyFailure | api/get-availability.js:63-68 | a failed fetch gives 500; a non-empty error list gives 400 with the first message; the handler continues exactly when the reply has no errors, whatever its HTTP status |
| ClientToken.TimestampIsWholeSeconds | server.js:84 | the timestamp is the second containing the clock reading, and for a non-negative clock it is all digits and reads back as that number of seconds |
| ClientToken.Timestamp | server.js:84 | the clock in whole seconds as decimal text; `ClientToken.TimestampIsWholeSeconds` states which second it is |
| ClientToken.Payload | server.js:85 | protocol tag, business id, client id and timestamp, without separators; `ClientToken.PayloadDeterminesClient`, `ClientToken.PayloadDeterminesSecond` and `ClientToken.PayloadIsPositional` state what it determines |
| ClientToken.Signature | server.js:87-89 | the signature is 44 base64 characters |
| ClientToken.GenerateClientToken | server.js:80-92 | the token is the signature followed by the payload, with the length of the two |
| ClientToken.SplitRecoversPayload | server.js:91 | cutting a token after 44 characters gives back the signature and the payload |
| ClientToken.SameSecondSameToken | server.js:84-91 | two clock readings in the same second give the same token |
| ClientToken.PayloadDeterminesClient | server.js:85 | with the business and the second fixed, the payload determines the client id |
| ClientToken.PayloadDeterminesSecond | server.js:84-85 | with the business and the client fixed, the payload determines the second |
| ClientToken.PayloadIsPositional | server.js:85 | the payload has no separators: client "c1" at second 7 and client "c" at second 17 get the same token |
| Server.ClientAuthHeader | server.js:53-55 | the header is `BasicAuth(apiKey, token)` when the token is truthy and the key-only header otherwise; either way it decodes to the key, a colon and the token if any |
| Server.Invoke | server.js:37-46 | a failed fetch throws its message; a non-ok status throws "HTTP status: text"; otherwise the first GraphQL error is thrown; the data comes back exactly when the status is ok and there are no errors |
| Server.CaughtFailure | server.js:142 | the `catch` block's 500 with the summary and the failure as `details`; `Server.LookupAnswer` and `Server.BookingRoute` state when each route gives it (server.js:142, 334) |
| Server.BuildSearchQuery | server.js:107-109 | the `+=` steps build the search string `SearchQuery` |
| Server.SearchQuery | server.js:107-109 | the search string case by case; `Server.SearchQueryShape` states its shape and `Server.BuildSearchQuery` builds it |
| Server.SearchQueryShape | server.js:107-109 | the search starts with the email clause when there is an email, ends with the phone clause when there is a phone, never starts with " OR ", and is empty exactly when both are falsy |
| Server.LookupAnswer | server.js:129-142 | 200 with the first client (or null) exactly when the call returns client data; otherwise 500 "Client lookup failed" carrying the thrown failure, or a TypeError when the data has the wrong shape |
| Server.LookupClientRoute | server.js:97-144 | with neither email nor phone, 400 and no call; otherwise one admin call with the key-only header and the search, answered by `LookupAnswer` |
| Server.GenerateTokenRoute | server.js:147-165 | a falsy client id gives 400 "Client ID required"; otherwise 200 with exactly `GenerateClientToken` of the id: the payload's signature followed by the payload |
| Server.LocationUrn | server.js:238-239 | the result always starts with the location URN prefix; an id already prefixed is kept as is; any other id gets the prefix |
| Server.LocationUrnIdempotent | server.js:238-239 | normalising twice is normalising once |
| Server.LocationUrnKeepsId | server.js:238-239 | the given id is always the suffix of the URN |
| Server.BookingDispatch | server.js:172-330 | an unknown or missing operation gives 400 with no call; each known operation sends its query; a missing `variables` (or `locationId` for createCart) throws a TypeError, giving 500; `tz` defaults to America/New_York |
| Server.Reshape | server.js:205-324 | each operation's body comes from the data of its own kind; any other data gives no body |
| Server.BookingRoute | server.js:168-336 | a dispatched operation is one client-API call with the token header; a successful call is answered 200 with the reshaped data, or 500 "Booking operation failed" with a TypeError when the data has the wrong shape; a thrown call gives 500 with the failure; a 200 answer implies the call succeeded |
| Calendar.DaysInMonth | api/get-availability.js:22 | every month has 28 to 31 days, and 29 exactly for February of a leap year |
| Calendar.FullYear | api/get-availability.js:21-22 | the constructor's year rule: 0 to 99 mean 1900 to 1999, any other year is kept; `Calendar.FirstOfMonth` states the month count that starts from it |
| Calendar.FirstOfMonth | api/get-availability.js:21 | the first of a month is a valid date that keeps the month count (year times 12 plus month), so month indices outside 0..11 carry into the year |
| Calendar.PreviousDay | api/get-availability.js:22 | the day before a valid date is a valid date whose day count is one less, across month, year and era boundaries and leap days |
| Calendar.MonthRangeIsWholeMonth | api/get-availability.js:21-22 | start and end are valid and lie in one month, from day 1 to its last day; for a month from 1 to 12 the start is that month of the full year |
| Calendar.DayZero | api/get-availability.js:22 | `new Date(year, monthIndex, 0)`: the day before the first of the month; `Calendar.MonthRangeIsWholeMonth` states it is the last day of the month before |
| Calendar.MonthRange | api/get-availability.js:21-22 | the handler's two dates; `Calendar.MonthRangeIsWholeMonth` states they span one whole month |
| Calendar.Representable | api/get-availability.js:24-25 | `toISOString()` throws on a date more than 10^8 days from the epoch; `Calendar.LastRepresentableDay` and `Calendar.FirstRepresentableDay` give the two extreme dates |
| Calendar.DaysFromCivil | api/get-availability.js:24-25 | the day count from 1970-01-01 behind `Representable`; `Calendar.EpochIsDayZero` anchors it, `Calendar.PreviousDay` steps it back by one, and `Calendar.LastRepresentableDay`/`Calendar.FirstRepresentableDay` give its limits |
| Calendar.RepresentableYears | api/get-availability.js:24-25 | every representable date has a year below 10^6 in magnitude, so its ISO date string has at most six year digits |
| Calendar.IsoDate | api/get-availability.js:24-25 | the date part of `toISOString()`; `Calendar.IsoDateRoundTrip` states that it reads back |
| Calendar.IsoYear | api/get-availability.js:24-25 | the year field of `toISOString()`: digits alone from 0 to 9999, otherwise `-` or `+` followed by digits |
| Calendar.IsoYearWidth | api/get-availability.js:24-25 | every year below 10^6 in magnitude takes four characters from 0 to 9999 and seven otherwise |
| Calendar.EpochIsDayZero | api/get-availability.js:24 | 1970-01-01 is day 0 of the count |
| Calendar.LastRepresentableDay | api/get-availability.js:24 | +275760-09-13 is 10^8 days after the epoch, the last representable date |
| Calendar.FirstRepresentableDay | api/get-availability.js:24 | -271821-04-20 is 10^8 days before the epoch, the first representable date |
| Calendar.IsoDateRoundTrip | api/get-availability.js:24-25 | the ISO date string of any valid date with a year below 10^6 in magnitude reads back as that date |
| Availability.LastDash | api/get-availability.js:86 | the result is the position of the last `-`, or None when there is none |
| Availability.SlotIdInjective | api/get-availability.js:86 | the date string and the index can be read back from a slot id, so distinct pairs get distinct ids |
| Availability.SlotId | api/get-availability.js:86 | the id `slot-<date>-<index>`; `Availability.SlotIdInjective` states it determines both parts |
| Availability.MatchingIndices | api/get-availability.js:76-90 | the indices of the slots placed under a date: all of them, in increasing order, and no others |
| Availability.KeysMembership | api/get-availability.js:81-83 | a date is a key exactly when some available slot falls on it |
| Availability.AccumulatedIsDescribed | api/get-availability.js:71-91 | the fold over slots equals the declarative grouping: one bucket per date, holding each available slot on that date, in slot order |
| Availability.Accumulated | api/get-availability.js:71-91 | the loop's map after a prefix of the slots, as a fold; `Availability.AccumulatedIsDescribed` and `Availability.GroupedTotal` state its contents |
| Availability.Grouped | api/get-availability.js:71-91 | the grouping of all slots, or None when a start time throws; `Availability.GroupedShape`, `Availability.GroupedPlacesEverySlot` and `Availability.GroupedIdsDistinct` state its properties |
| Availability.GroupAvailable | api/get-availability.js:71-91 | the loop computes `Grouped`: the fold of all slots, or None (a throw) when an available slot's start time is not a valid date |
| Availability.GroupedShape | api/get-availability.js:76-90 | the result has a key exactly when an available slot falls on that date; each list is non-empty and is that date's bucket |
| Availability.GroupedPlacesEverySlot | api/get-availability.js:77-88 | every available slot is in the result under its own date, with its own index and start time |
| Availability.GroupedIdsDistinct | api/get-availability.js:86 | no two entries of the result share an id |
| Availability.GroupedTotal | api/get-availability.js:76-90 | the lists together hold exactly as many entries as there are available slots |
| Availability.RangeDates | api/get-availability.js:17-25 | the date strings are built exactly when month and year are given and both dates are representable, and they are the ISO dates of the month's first and last day |
| Availability.RangeDatesReadBack | api/get-availability.js:21-25 | the two date strings sent read back as the first and the last day of the month |
| Availability.AvailabilityAnswer | api/get-availability.js:63-97 | errors give `ReplyFailure`; no data gives 500; no location or no slots give 200 with an empty map; otherwise 200 with the grouping, or 500 when the grouping throws |
| Availability.SlotsOf | api/get-availability.js:73 | `location.appointmentSlots` when the data has a location with a slot list; `Availability.AvailabilityAnswer` states the empty map given otherwise |
| Availability.AvailabilityCall | api/get-availability.js:43-61 | the admin call with the key-only header, the location, the staff id and the two dates; `Availability.GetAvailabilityHandler` states it is the one call made, and `Availability.RangeDatesReadBack` which dates it carries |
| Availability.GetAvailabilityHandler | api/get-availability.js:3-99 | after the gate, an unbuildable range gives 500 with no call; otherwise one admin call with the key-only header and the range, answered by `AvailabilityAnswer` |
| LookupClient.FilterAgainstServer | api/lookup-client.js:26 | the handler's filter equals the server's search when an email is given or no phone is; with only a phone it has an extra leading " OR " |
| LookupClient.FilterLeadingSeparator | api/lookup-client.js:26 | the filter starts with " OR " exactly when only a phone is given |
| LookupClient.Filter | api/lookup-client.js:26 | the filter from the nested template; `LookupClient.FilterAgainstServer` and `LookupClient.FilterLeadingSeparator` state how it relates to the server's search |
| LookupClient.LookupAnswer | api/lookup-client.js:56-71 | errors give `ReplyFailure`; client data gives 200 with the first client or null; any other data gives 500 |
| LookupClient.LookupClientHandler | api/lookup-client.js:3-72 | after the gate, neither email nor phone gives 400 with no call; otherwise one admin call with the filter, answered by `LookupAnswer` |
| CreateBooking.NotesShape | api/create-booking.js:105 | the notes start with the treatment and have the length of their parts; they hold the staff segment right after the treatment when a staff member is preferred, end with the flexible-timing remark when asked, and are the treatment alone when neither applies |
| CreateBooking.FirstAvailableIsNoPreference | api/create-booking.js:105 | "first-available" and an empty staff id give the same notes as no staff id |
| CreateBooking.NotesDetermineStaff | api/create-booking.js:105 | two preferred staff ids that give the same notes are equal |
| CreateBooking.Notes | api/create-booking.js:105 | the notes template; `CreateBooking.NotesShape`, `CreateBooking.FirstAvailableIsNoPreference` and `CreateBooking.NotesDetermineStaff` state its properties |
| CreateBooking.PrefersStaff | api/create-booking.js:105 | a truthy staff id other than "first-available"; `CreateBooking.FirstAvailableIsNoPreference` and `CreateBooking.NotesShape` state its effect on the notes |
| CreateBooking.NeedsClient | api/create-booking.js:32 | a client is created first exactly when no client id is given and first name, last name and email are; `CreateBooking.CreateBookingHandler` states both paths |
| CreateBooking.AppointmentFor | api/create-booking.js:101-106 | the appointment input for the chosen client id; `CreateBooking.AppointmentCopiesForm` states what it copies |
| CreateBooking.AfterClient | api/create-booking.js:67-73 | client creation errors give `ReplyFailure`; created-client data gives its id; any other data gives 500 |
| CreateBooking.ClientCall | api/create-booking.js:46-65 | the admin client-creation call with the names, the email and the phone as given; `CreateBooking.CreateBookingHandler` states that it is made first exactly when `NeedsClient` holds |
| CreateBooking.AppointmentCall | api/create-booking.js:108-123 | the admin appointment-creation call for the chosen client id; `CreateBooking.AppointmentCopiesForm` states what its input carries and `CreateBooking.CreateBookingHandler` which client id is chosen |
| CreateBooking.BookingAnswer | api/create-booking.js:125-137 | errors give `ReplyFailure`; a created appointment gives 200 with success, the appointment and the message; any other data gives 500 |
| CreateBooking.CreateBookingHandler | api/create-booking.js:29-141 | with a client id, or with missing name or email, one appointment call for the given id; otherwise the client creation call first, then the response on failure, or an appointment call for the new client's id |
| CreateBooking.AppointmentCopiesForm | api/create-booking.js:101-106 | the appointment input carries the client id, location and start time unchanged, and notes that begin with the treatment |
| ClientMembership.MembershipAnswer | api/client-membership.js:56-66 | errors give `ReplyFailure`; membership data gives 200 with the first membership or null; any other data gives 500 |
| ClientMembership.ClientMembershipHandler | api/client-membership.js:3-72 | after the gate, no bearer token gives 401 with no call; otherwise one client-API call, answered by `MembershipAnswer` |
| ClientMembership.MembershipForwardsToken | api/client-membership.js:22-42 | the call's header decodes to the API key, a colon and exactly the bearer token |
| ClientMembership.MembershipCall | api/client-membership.js:42-54 | the client-API membership call with the key and the token; `ClientMembership.MembershipForwardsToken` states what its header decodes to |
| AppointmentHistory.HistoryAnswer | api/appointment-history.js:66-74 | errors give `ReplyFailure`; appointment data gives 200 with the nodes of the edges; any other data gives 500 |
| AppointmentHistory.AppointmentHistoryHandler | api/appointment-history.js:3-80 | after the gate, no bearer token gives 401 with no call; otherwise one client-API call with the key-only header, answered by `HistoryAnswer` |
| AppointmentHistory.HistoryIgnoresToken | api/appointment-history.js:55 | the token is checked but not sent: any two bearer headers give the same exchange |
| AppointmentHistory.HistoryCall | api/appointment-history.js:55-64 | the client-API history call with the key-only header; `AppointmentHistory.HistoryIgnoresToken` states that no token enters it |
| AppointmentHistory.HistoryKeepsOrder | api/appointment-history.js:73 | the appointments are the edges' nodes in the platform's order, with none added or dropped |

## Left out

- HMAC-SHA256 and base64 decoding of the secret are parameters of `ClientToken.Crypto`. Only the digest length is modelled, so HMAC sensitivity to the message, and so on, is not proved.
- `Date.now()` is the parameter `nowMs`, and the platform is the parameter `upstream`. The model has no network, no asynchrony and no concurrency.
- The grouping of slots by date takes the date string of a start time as a parameter `dateKey`. This covers `new Date(startTime)` with its string parsing and its local time zone.
- `Calendar` works in UTC, whereas `new Date(y, m, d)` uses the host's local time zone. The model treats the host as UTC, so no date shifts across midnight.
- Express, CORS headers, `express.json()`, dotenv, `console` logging and `app.listen` are framework glue.
- The server's health route is left out: it only reports the clock and the business id.
- `api/get-staff.js` and `api/authenticate-client.js` are not part of this model.
- The GraphQL documents are sent as fixed text, so the model names each operation by a constructor and keeps only its variables and its filter string. The quoting inside the client search is not modelled. Both client lookups put the filter, whose clauses carry their own double quotes, inside the quoted GraphQL argument `clients(query: "...", first: 1)` (server.js:113, api/lookup-client.js:26). The first `"` of `email = "` or `mobilePhone = "` ends that string literal. So, on reading the text, the document they send for an ordinary email or phone is not valid GraphQL. The model keeps only the filter string, so it does not capture this.
- JSON values other than strings, such as numbers, booleans, objects or `null` in a field read as text, are not modelled. So is a `month` or `year` that is not an integer.
- `None` stands for an absent field, which renders as "undefined". A field sent as `null` is not modelled. JavaScript would treat it differently from an absent one in three places:
  - a `null` month or year reads as 0 in `month - 1` and in `new Date(null, m, d)` (year 1900), so it builds a range where the model answers 500 with no call;
  - a `null` `tz` is sent as `null`, because the destructuring default at server.js:283 applies only to `undefined`, whereas the model sends the default;
  - a `null` value renders as "null" in a template.
- Where the answer shape in `data` is wrong, the model gives the handler's 500. It does not model the TypeError message text that the server passes in `details`.
- The key order of JSON objects in responses, and prototype-named keys such as `__proto__` in the availability map, are not modelled.
- Strings are sequences of Unicode scalar values, not UTF-16 code units. A JavaScript string holding a lone surrogate cannot be expressed; Node would encode it as U+FFFD.
- Numbers are unbounded integers, with no floating-point precision limits.
- `Server.GenerateTokenRoute`: the 500 "Token generation failed" path is not modelled, because the cryptographic parameters never throw.
- The `query` and `bookingData` fields of the booking request are unused by the source and are not modelled.
