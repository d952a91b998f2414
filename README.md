# Booking ledger of the fitness-class booking service

The service keeps two tables: `classes` (id, name, instructor, UTC start
time, remaining slots) and `bookings` (id, class id, client name, client
email). It offers three operations over them:

- booking a class. The request is checked in a fixed order: the three keys
  must be present, the class must exist, and the class must have a slot left.
  Only then is a booking row appended and the class's slots decremented.
- listing a client's bookings by exact email, each joined with its class's
  name.
- listing all classes with their remaining slots.

Start-up inserts three sample classes: Yoga with 10 slots, Zumba with 8 and
HIIT with 5.

The model is in three modules:

- `Tables` (`tables.dfy`) holds the rows, the request and response shapes and
  the pure queries. It also holds the ledger invariant `LedgerInv` and the
  lemmas that each state change keeps it. The invariant says:
  - ids are increasing in storage order (so unique) and below the next id;
  - every booking references an existing class;
  - no class has negative slots;
  - each class's slots plus the number of its bookings equals the slots it
    was inserted with.
- `Ledger` (`ledger.dfy`) holds the class `BookingLedger`. Its fields are the
  two tables, as sequences, and one next-id counter per table, standing in
  for `AUTOINCREMENT`. A ghost field records each class's inserted slots.
  Booking, seeding and inserting a class are methods that reassign the
  fields. Listing classes is a read-only method with a loop, as in the
  source. Listing bookings is a function of the state.
- `Scenarios` (`scenarios.dfy`) states the repository's unit tests as
  verified methods, each test on a new database. It also holds a general
  repeated-booking property (on a class with K slots, the first min(N, K) of
  N requests succeed and the rest are NoSlots) and the finding below.

Inputs that the service takes from outside are parameters:

- The request body is a map from keys to JSON values. Only integers and
  strings are modelled.
- The timezone conversion is a function parameter of type `Converter` and is
  otherwise uninterpreted.
- The sample classes' start times come from the wall clock, so they are
  parameters too.

The model follows the code in three places where one might expect otherwise:

- Booking checks only that the keys are present, not that their values are
  non-empty.
- Booking reads the slots, inserts the booking and then decrements without a
  guard. An atomic guarded decrement (`UPDATE ... WHERE id = ? AND slots > 0`)
  would behave the same in this sequential model, because nothing runs
  between the check and the decrement.
- The booking listing also refuses an empty email, not only a missing one.

## Model

| member | source | states |
|---|---|---|
| `Tables.Status` | app.py:68-92 | status 201 exactly for a successful booking, 404 exactly for an unknown class, and 400 for the other two refusals (missing keys, no slots), the code being one of 201, 400 and 404 |
| `Tables.HasRequiredFields` | app.py:67-69 | true exactly when `class_id`, `client_name` and `client_email` are all keys of the body; values are not inspected |
| `Tables.ClassKey` | app.py:71-78 | the `class_id` value selects a class id exactly when it is an integer, and then it is that integer; in the model a string selects none (see "Left out") |
| `Tables.FindClass` | app.py:78-81 | returns the position of the first class row with the id, or nothing exactly when no row has that id |
| `Tables.BookOutcome` | app.py:66-92 | MissingFields exactly when a key is absent; ClassNotFound exactly when the keys are present and no class has the requested id; with unique ids, NoSlots exactly when that class has slots <= 0 and Ok exactly when it has slots > 0 |
| `Tables.CountZero` | app.py:23-29 | a class's booking count is zero exactly when no booking references it |
| `Tables.CountAppend` | app.py:86-87 | appending a booking raises the count of its own class by one and leaves every other class's count unchanged |
| `Tables.InsertClassPreserves` | app.py:125-127 | inserting a class with non-negative slots under the next id keeps the ledger invariant, the new class having no bookings |
| `Tables.BookStepPreserves` | app.py:82-88 | appending one booking under the next id and decrementing a class that had a slot keeps the ledger invariant: slots stay non-negative, slots plus bookings stays constant for every class, ids stay increasing and every booking's class exists |
| `Tables.DecrementById` | app.py:88 | with unique ids, decrementing one position is `UPDATE ... WHERE id = ?`: that class loses one slot and every other class is unchanged |
| `Tables.Matching` | app.py:103-105 | a booking is in the result exactly when it is stored, its email equals the query exactly and its class exists; storage order is kept (ids stay increasing) |
| `Tables.MatchingAppend` | app.py:86-87 | appending a booking adds it at the end of an email's matches exactly when it matches |
| `Tables.MatchingIgnoresSlots` | app.py:88 | changing a class's slots does not change any email's matches |
| `Tables.ListingAfterBook` | app.py:86-105 | after a successful booking its email's matches gain the new booking at the end, and every other email's matches are unchanged |
| `Tables.ViewOf` | app.py:108-112 | a listing entry carries the booking's id and the name and the Asia/Kolkata start time of a class with the booking's class id |
| `Ledger.BookingLedger.constructor` | app.py:13-29 | a new database: both tables empty, both id counters at 1, invariant holds |
| `Ledger.BookingLedger.InsertClass` | app.py:126-127 | appends one class row under the next class id; bookings unchanged; invariant kept |
| `Ledger.SampleClasses` | app.py:120-124 | the sample list has three classes with distinct names, each with a positive slot count |
| `Ledger.SampleRows` | app.py:120-124 | the sample list becomes the rows Yoga/Anjali/10, Zumba/Ravi/8, HIIT/Suresh/5 under three consecutive ids, with slot counts 10, 8, 5 |
| `Ledger.BookingLedger.InsertAll` | app.py:125-127 | inserts the samples in list order under consecutive ids from the next class id; bookings unchanged; invariant kept |
| `Ledger.BookingLedger.Seed` | app.py:116-129 | appends Yoga/Anjali/10, Zumba/Ravi/8 and HIIT/Suresh/5 in that order under three consecutive ids; bookings unchanged; invariant kept |
| `Ledger.BookingLedger.Book` | app.py:64-92 | the result is `BookOutcome` of the old classes; any refusal leaves both tables and counters unchanged; success appends exactly one booking (next id, class id, name, email), decrements exactly that class's slots by one and leaves every other class unchanged; invariant kept |
| `Ledger.BookingLedger.Reserve` | app.py:86-88 | appends the booking row under the next booking id, then decrements exactly the rows with the class's id by one; invariant kept |
| `Ledger.BookingLedger.ListClasses` | app.py:42-61 | one view per class in storage order, with id, name, instructor, stored slots and the start time converted to the requested zone (Asia/Kolkata by default); under the invariant every available-slots value is non-negative and plus its bookings equals its inserted slots; nothing changes |
| `Ledger.BookingLedger.ListBookings` | app.py:95-112 | EmailRequired exactly when the email is absent or empty; otherwise one entry per matching booking in order, with its booking id and its class's name and Asia/Kolkata time; reads only |
| `Scenarios.SetUpFresh` | tests/test_app.py:10-13 | a new database with the sample classes under ids 1, 2 and 3 and no bookings |
| `Scenarios.BookPosition` | app.py:78-88 | one request for an existing class: when it had a slot, Ok, one slot fewer, the row (next booking id, class id, name, email) appended and the booking counter advanced; otherwise NoSlots with the bookings and the counter unchanged; other classes unchanged either way |
| `Scenarios.Requested` | app.py:86-87 | the rows the first n requests store: row k has booking id first + k, the class's id and the k-th email |
| `Scenarios.BookNext` | app.py:78-88 | one request in a run: Ok exactly while fewer requests than the class's starting slots came before, and the run's booked count and rows advance by one exactly then |
| `Scenarios.BookRepeatedly` | app.py:78-88 | n booking requests in a row on a class with s slots: the first min(n, s) succeed, all later ones are NoSlots; the class ends with s - min(n, s) slots; the earlier bookings are kept and followed by exactly the min(n, s) requested rows under consecutive booking ids; other classes are unchanged |
| `Scenarios.FillClassOne` | tests/test_app.py:33-44 | ten bookings of the 10-slot class 1 succeed and the eleventh is NoSlots, leaving 0 slots |
| `Scenarios.GetClasses` | tests/test_app.py:15-20 | the class listing is the three sample classes in order, with 10, 8 and 5 available slots |
| `Scenarios.BookClassSuccess` | tests/test_app.py:22-29 | booking class 1 succeeds with status 201 |
| `Scenarios.BookClassNoSlots` | tests/test_app.py:31-46 | ten bookings succeed, the eleventh is NoSlots with status 400, and 0 slots remain |
| `Scenarios.GetBookingsByEmail` | tests/test_app.py:48-57 | after Alice books class 2, her listing is exactly one entry: booking 1, Zumba |
| `Scenarios.BookZumbaForAlice` | tests/test_app.py:49-53 | Alice's booking of class 2 on the sample data is stored as booking 1 and is the only booking; class 2 loses one slot and classes 1 and 3 are unchanged |
| `Scenarios.AliceMatches` | tests/test_app.py:55-57 | with Alice's booking as the only one, her email's matches are exactly that booking |
| `Scenarios.InvalidBookingMissingFields` | tests/test_app.py:59-65 | a body without `client_email` is MissingFields with status 400 and no booking is stored |
| `Scenarios.GetBookingsMissingEmailParam` | tests/test_app.py:67-70 | listing bookings without an email is EmailRequired |
| `Scenarios.SuiteAsWritten` | tests/test_app.py:10-29 | the sold-out test followed by the success test on one database file: the success test's booking is NoSlots |
| `Scenarios.SuiteWithFreshDatabase` | tests/test_app.py:10-46 | the same two tests, each on a new database: the eleventh booking is NoSlots and the success test's booking is Ok |

## Left out

- HTTP routing, JSON decoding and encoding are not modelled. Requests are maps, responses are result values, and `Status` gives the booking route's codes.
- A request body that is not a JSON object is not modelled. With `None`, the key test at app.py:68 raises, so the server fails rather than returning a result.
- JSON values other than integers and strings (floats, booleans, null, arrays, objects) are not modelled as body values.
- Tables.ClassKey, Tables.BookOutcome: a `class_id` sent as a string selects no class in the model. SQLite applies the integer column's type affinity to the bound value, so a numeric string such as `"1"` selects class 1 there.
- Ledger.BookingLedger.Book: an integer `client_name` or `client_email` is stored as an integer. SQLite's TEXT affinity stores its decimal text instead, so a listing for that text would find it in SQLite but not in the model.
- Tables.Matching: if two classes shared an id, an SQL join would give one row per class, but the model takes the first class. Ids are unique under the invariant, so this never happens in a valid state.
- The order of query results is taken as storage order. SQLite does not promise an order without `ORDER BY`.
- SQLite connections, cursors, `commit` and `close` are left out. That includes the early returns at app.py:81 and app.py:83 that skip `close`.
- Concurrency is left out. The read-then-write race between app.py:78 and app.py:88 needs several workers. The model is sequential, so the check and the decrement are atomic.
- Timezone conversion (app.py:35-38) is an uninterpreted function parameter:
  - not modelled: an unknown zone name or a malformed stored timestamp makes the conversion raise, which would give a server error;
  - not stated: a conversion round trip.
- The sample classes' start times are built from the wall clock (app.py:119-123) and are taken as parameters.
- Table creation and start-up (app.py:13-31, app.py:133-136) are not separate members:
  - the constructor is `init_db` on a new file;
  - `init_db` on an existing file changes nothing;
  - `SuiteAsWritten` shows the effect of that.
- Integers are unbounded:
  - the 64-bit limits of SQLite's integers and of `AUTOINCREMENT` are not modelled;
  - slots only decrease from the sample values and are refused at 0, so slots cannot overflow;
  - a request whose integer `class_id` is 2^63 or more makes the sqlite3 binding at app.py:78 raise, which is a server error; the model answers ClassNotFound for it.

## Findings

| source | as written | input that shows it | evidently intended | confidence | as-written member | corrected member |
|---|---|---|---|---|---|---|
| tests/test_app.py:12 | `init_db()`, commented "reset the DB", creates the tables only if they are missing, so every `setUp` keeps earlier tests' rows and inserts three more sample classes | the suite in its default name order on one database file: `test_book_class_no_slots` sells out class 1, then `test_book_class_success` books class 1 and gets NoSlots (400), not 201 | each test starts from an empty database | not executed | `Scenarios.SuiteAsWritten` | `Scenarios.SuiteWithFreshDatabase` |
