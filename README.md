# Airline reservation handlers: a verified model

This project models the decision logic of a Flask airline reservation site, `app.py`. The site has public, customer and airline-staff pages over a MySQL database. The model covers the parts of the handlers that decide something. The routing, templates and SQL execution are not modelled.

- **Staff flight listing** (`build_staff_query`). It turns an airline and seven optional text filters into a WHERE list and the values bound to its `%s` placeholders:
  - an optional date range, with the two dates put in order;
  - otherwise a `current` / `future` / `past` period, or a 30-day window by default;
  - optional airport equality filters and city `LIKE '%x%'` filters.

  The predicates are a datatype, not SQL text. `StaffFilters` is the specification: a list of filters, each a predicate with its own values. `BuildStaffQuery` appends to the two parallel lists step by step, as the handler does, and is proved equal to it.
- **Flight search** (`public_search` and `customer_search`, which share their code). It always restricts to upcoming flights, then adds departure airport, arrival airport and departure day when those fields are non-empty after normalisation.
- **Ticket purchase** (`customer_purchase`). A chain of eight checks stops at the first failure:
  1. missing fields;
  2. flight not found;
  3. cancelled;
  4. already departed;
  5. no customer row;
  6. name mismatch;
  7. non-digit card number;
  8. card length.

  Otherwise a ticket is issued under `COALESCE(MAX(id), 0) + 1`. `Decide` is the chain as a pure function of the read form, the flight row, the customer row, the database clock and the existing ticket ids. `Purchase` reads the form and calls `Decide` with the handler's name normaliser `Norm`.
- **Reviews** (`save_review`, `delete_review`). `ReviewTable` is a class over the Review rows. Saving checks the rating is in 1..5, then deletes any review under the (customer, airline, flight number, departure) key and inserts the new one.
- **Role gates** (`as_customer`, `as_staff`) over the session store.
- **Python string operations** the handlers rely on: `strip`, `upper`, `lower`, `split`, `" ".join`, `isdigit`, and string `<`. They live in module `Text`.

Files:
- `wrappers.dfy`: `Option`.
- `text.dfy`: `Text`.
- `bindings.dfy`: `Bindings`, the WHERE list / parameter list pair.
- `staff_query.dfy`: `StaffQuery`.
- `flight_search.dfy`: `FlightSearch`.
- `purchase.dfy`: `Purchase`.
- `reviews.dfy`: `Reviews`.
- `session.dfy`: `Session`.

## Model

| member | source | states |
|---|---|---|
| StaffQuery.StaffFilters | app.py:52-86 | the airline predicate comes first, bound to the airline; every predicate binds as many values as it has placeholders; predicates appear in the builder's fixed order, none twice |
| StaffQuery.BuildStaffQuery | app.py:33-86 | the WHERE list and parameter list built append by append are the predicates and the values of `StaffFilters` |
| StaffQuery.AppendDateFilters | app.py:55-70 | the date step appends exactly the date filters: the range when both dates are given, else the period's predicate(s) |
| StaffQuery.AppendIfPresent | app.py:72-86 | an airport or city step appends its predicate and its one value exactly when the normalised input is non-empty |
| StaffQuery.DateFilters | app.py:55-70 | the date step yields one or two predicates |
| StaffQuery.PlaceFilters | app.py:72-86 | the place filters are well bound and come in the order departure airport, arrival airport, departure city, arrival city |
| StaffQuery.PlaceholdersMatchParams | app.py:52-86 | the number of `%s` placeholders in the WHERE list equals the number of parameters; the first predicate is the airline's and the first parameter is the airline |
| StaffQuery.DateRange | app.py:55-60 | with both trimmed dates non-empty, the range predicates follow the airline; their values are the two dates as a multiset, in string order; no period predicate appears |
| StaffQuery.DateFiltersSymmetric | app.py:55-60 | the date filters are the same whichever order the two dates are given in |
| StaffQuery.SwapDatesInvariant | app.py:55-60 | exchanging the start and end inputs leaves the whole query unchanged |
| StaffQuery.PeriodFallback | app.py:61-70 | without both dates, `current`, `future` and `past` each emit one predicate; anything else, empty or absent included, emits the two-predicate 30-day window; no date predicate binds a value |
| StaffQuery.PeriodIgnoresCase | app.py:44 | an upper-cased period gives the same query as the original; an absent period gives the same query as an empty one |
| StaffQuery.PlaceFiltersNormalised | app.py:45-86 | each airport and city predicate is present iff its trimmed input is non-empty; an airport binds the trimmed, upper-cased code; a city binds `%` + trimmed city + `%` |
| StaffQuery.AirportCodeNormalised | app.py:45-46 | an airport code as read has no surrounding whitespace and no lower-case ASCII letter, is as long as the trimmed input, and is empty iff the trimmed input is |
| StaffQuery.PeriodNormalised | app.py:44 | a period as read has no surrounding whitespace and no upper-case ASCII letter, and is empty iff the trimmed input is |
| StaffQuery.SamePeriod | app.py:44-70 | two inputs that differ only in the period give the same query whenever their periods read alike |
| FlightSearch.Filters | app.py:115-126 | a search always starts with the upcoming-flights predicate, which binds nothing, and every predicate is well bound |
| FlightSearch.BuildSearch | app.py:112-127 | the clause and argument lists built by the handler are those of `SearchFilters` of the posted form |
| FlightSearch.BuildFromFields | app.py:120-126 | starting from the upcoming-flights predicate, the three conditional appends yield exactly the predicates and values of `Filters` |
| FlightSearch.AppendIfPresent | app.py:121-126 | a field's predicate and value are appended exactly when the normalised field is non-empty |
| FlightSearch.SearchArgs | app.py:258-268 | the arguments are the non-empty normalised fields in the order departure, arrival, day (`customer_search` runs the same code as `public_search`) |
| FlightSearch.FiltersArgs | app.py:120-126 | the arguments of the filters are the non-empty values among departure, arrival and day, in that order |
| FlightSearch.SearchClauses | app.py:121-126 | each of the three predicates is in the WHERE list iff its normalised field is non-empty |
| FlightSearch.FiltersClauses | app.py:121-126 | each optional predicate is present iff its value is non-empty |
| FlightSearch.FiltersBound | app.py:115-126 | the predicates come in the handlers' order (upcoming flights, departure airport, arrival airport, day) with none twice; each optional predicate is present iff its value is non-empty and binds exactly that value |
| FlightSearch.SearchBound | app.py:112-126 | for a posted form, the departure predicate binds the normalised departure code, the arrival predicate the normalised arrival code and the day predicate the trimmed date, in that order |
| FlightSearch.SearchPlaceholders | app.py:115-127 | the placeholders equal the number of arguments, at most three |
| FlightSearch.CodeAsStaff | app.py:112-113 | the search's upper-then-strip airport code equals the staff listing's strip-then-upper code |
| FlightSearch.CodeNormalised | app.py:112-113 | a searched airport code has no surrounding whitespace and no lower-case ASCII letter, and is empty iff the input is absent or all whitespace |
| Purchase.NextId | app.py:336-337 | the new id exceeds every existing id, so it is not among them; it is 1 for an empty table; otherwise it is one more than an existing id |
| Purchase.Decide | app.py:290-349 | an issued ticket carries the id `NextId(ids)`, that is `COALESCE(MAX(id), 0) + 1`, which is fresh; a card number of 13 to 19 digits; and the signed-in email |
| Purchase.Purchase | app.py:280-349 | a ticket is issued only to an existing customer whose account name has the same words as the name on the card, up to case |
| Purchase.FieldRead | app.py:282-288 | a field as read is stripped; an absent field reads as the stripped default; a field without a default reads like any other text input |
| Purchase.ReadOrderFields | app.py:280-288 | the name on the card defaults to the stripped email and the card type to "Credit", both stripped; the five other fields are the stripped inputs, empty when absent |
| Purchase.MaxId | app.py:336 | the maximum is one of the ids and no id exceeds it |
| Purchase.FirstFailure | app.py:290-334 | the purchase is rejected for reason `e` iff check `e` fails and every earlier check passes |
| Purchase.Accepted | app.py:290-349 | a ticket is issued iff no check fails |
| Purchase.CardDecides | app.py:328-334 | once the earlier checks pass, the ticket is issued iff the card number is all digits and 13 to 19 characters long |
| Purchase.IssuedTicket | app.py:336-349 | an issued ticket has a flight that exists, is not cancelled and departs after now; the names match; the card is valid; the id is `NextId(ids)`, fresh and above every id; the row carries the email, the clock and the read form fields |
| Purchase.CancelledRefused | app.py:306-308 | a CANCELLED flight is refused whatever the name, card, customer, ticket table and name normaliser |
| Purchase.DepartingNowRefused | app.py:310-314 | a flight departing exactly at the database clock is refused as already departed |
| Purchase.DefaultNameIsEmail | app.py:285 | without a name on the card the ticket carries the stripped email as the name, and the purchase passed only because the email normalises to the account name |
| Purchase.FreshIdKeepsDistinct | app.py:336-349 | adding the issued id to distinct ticket ids keeps them distinct |
| Purchase.CardExamples | app.py:328-334 | a 16-digit number passes; 12 and 20 digits fail; a number with dashes fails |
| Text.Strip | app.py:44-50 | the result is no longer than the input, starts and ends with non-whitespace, and is empty iff the input is all whitespace |
| Text.StripExact | app.py:44-50 | a whitespace run, a stripped core and a whitespace run strip to exactly the core |
| Text.TrimNormalised | app.py:44-50 | an input read as `(x or "").strip()` is stripped, is empty iff the input is absent or all whitespace, and is the core of any whitespace-padded input |
| Text.StripIdempotent | app.py:44-50 | stripping twice is stripping once |
| Text.UpperStrip | app.py:45-46 | upper-casing commutes with stripping |
| Text.Split | app.py:323 | every piece `split()` returns is a non-empty word free of whitespace |
| Text.SplitJoin | app.py:323 | splitting words joined by single spaces gives the words back |
| Text.NormIdempotent | app.py:323 | name normalisation is idempotent |
| Text.Norm | app.py:323 | the words of a normalised name are the name's words lower-cased |
| Text.NormMatch | app.py:322-324 | two names normalise alike iff they have the same words up to ASCII case |
| Text.NormTwoWords | app.py:323-324 | two words with any whitespace before and between them normalise like the same words, up to case, joined by one space |
| Text.NormExample | app.py:323-324 | "  JOHN   DOE" and "John Doe" normalise alike |
| Text.StrLessTotal | app.py:56 | two different strings are ordered one way or the other |
| Text.StrLessAsymmetric | app.py:56 | the string order is asymmetric |
| Text.StrLessIrreflexive | app.py:56 | no string is below itself |
| Text.StrLessTransitive | app.py:56 | the string order is transitive |
| Text.DigitsAreWord | app.py:328-330 | a card number of digits only is unchanged by stripping and is one word |
| Reviews.SaveReplaces | app.py:383-391 | after delete-then-insert, exactly one review, the new one, is stored under its key; every other key keeps its reviews; keys stay unique |
| Reviews.WithoutMatching | app.py:383-386 | after the delete nothing is stored under the key and other keys keep all their rows |
| Reviews.WithoutUnique | app.py:383-386 | deleting keeps keys unique |
| Reviews.WithoutMembers | app.py:383-386 | a row survives the delete iff it was stored and has another key |
| Reviews.UpsertedMembers | app.py:383-391 | after a save the table holds the saved review and the old rows under other keys, and nothing else |
| Reviews.ReviewTable.Save | app.py:376-391 | the review is saved iff the rating is in 1..5; then the table is the old table upserted with the stripped comment; otherwise the table is unchanged |
| Reviews.ReviewTable.Upsert | app.py:383-391 | the table becomes the old table minus the key's rows, plus the new review, and keys stay unique |
| Reviews.ReviewTable.Delete | app.py:396-404 | the table keeps exactly the rows under other keys, in order, and keys stay unique |
| Reviews.ReviewTable.Insert | app.py:387-391 | the insert succeeds iff no row has the key; then the review is appended, otherwise nothing changes |
| Session.AsCustomer | app.py:27-28 | the customer gate holds iff the session records the role "customer" |
| Session.AsStaff | app.py:30-31 | the staff gate holds iff the session records the role "staff" |
| Session.GatesExclusive | app.py:27-31 | no session passes both gates; a session without a role passes neither |
| Session.GatesReadOnlyRole | app.py:27-31 | changing any session entry other than the role changes neither gate |

## Left out

- Flask routing, templates, `flash`, `redirect` and the login redirect of each handler are not modelled. The session is an explicit map passed to the gates.
- SQL execution and the pymysql connection (cursors, `commit`) are not modelled. The predicates are a datatype; what the database does with `NOW()`, `CURRENT_DATE`, `DATE_ADD` and `LIKE` is not modelled. Neither is the fixed SELECT text or the `ORDER BY`.
- Flight rows, customer rows and the existing ticket ids are inputs to `Decide`, as the handler reads them from the database. The database clock is an integer instant, and datetimes are compared as integers.
- The `max + 1` ticket id is one sequential step. Two purchases running at once could draw the same id; the model does not capture that.
- Text.Upper, Text.Lower, Text.IsDigits: ASCII only. Python's `upper`, `lower` and `isdigit` also map or accept non-ASCII letters and digits.
- Purchase.Decide: the departure check's `NOW()` and the insert's `NOW()` (app.py:310-312, 345) are two reads of the database clock, modelled as one instant `now`. The ticket's purchase time is the `now` of the departure check, so the model's "purchased before departure" is not promised by the source, whose second read may come later.
- Purchase.Decide: the name normaliser is a parameter. `Purchase.Purchase` passes `Norm`, the handler's `" ".join(s.split()).lower()`. The lemmas about the check chain hold for any normaliser; those about `Norm` are in `Text`.
- Text.NormExample: the strings are written as concatenations of their words and whitespace runs, which denote the same strings.
- Reviews.ReviewTable.Save: the rating is an integer. The handler's `int()` conversion, which raises on a non-numeric rating, is not modelled.
- Reviews.ReviewTable.Save: the key fields are strings. The handler reads them with `form.get`, so an absent field is None. With None the SQL `=` matches nothing and the insert is left to the database's column constraints; that is not modelled.
- Reviews.ReviewTable.Insert: the Review table's primary-key constraint is a refusal that leaves the table unchanged, where the database raises an error. The save deletes the key first, so it always succeeds.
- Reviews.ReviewTable.Delete: `delete_review` passes the form fields as the key, and an absent field (None) matches no row; the model takes the key as given.
- MD5 password hashing, login and registration, the staff reports and ratings, the health check and application startup are not modelled: they are library calls or pure SQL.
