/** The repository's unit tests as verified scenarios. Each test's set-up
    creates the tables and inserts the sample classes; the start times of the
    sample classes come from the wall clock and are parameters here, and so is
    the timezone conversion. */
module Scenarios {
  import opened Tables
  import opened Ledger

  /** A booking request body carrying all three keys. */
  function Request(classId: int, name: string, email: string): Body
  {
    map["class_id" := Int(classId), "client_name" := Text(name), "client_email" := Text(email)]
  }

  /** The emails `user0@example.com` to `user9@example.com`. */
  function UserEmail(k: nat): string
    requires k < 10
  {
    "user" + [('0' as int + k) as char] + "@example.com"
  }

  /** A test's set-up on a new database file: the three sample classes under
      ids 1, 2 and 3, and no bookings. */
  method SetUpFresh(yogaUtc: string, zumbaUtc: string, hiitUtc: string) returns (db: BookingLedger)
    ensures fresh(db) && db.Valid()
    ensures db.classes == [ClassRow(1, "Yoga", "Anjali", yogaUtc, 10),
                           ClassRow(2, "Zumba", "Ravi", zumbaUtc, 8),
                           ClassRow(3, "HIIT", "Suresh", hiitUtc, 5)]
    ensures db.bookings == [] && db.nextClassId == 4 && db.nextBookingId == 1
  {
    db := new BookingLedger();
    db.Seed(yogaUtc, zumbaUtc, hiitUtc);
  }

  /** One booking request for the class at position `i`: Ok and one slot
      fewer when the class has a slot, NoSlots and no change otherwise. */
  method BookPosition(db: BookingLedger, i: nat, name: string, email: string) returns (r: BookResult)
    requires db.Valid()
    requires i < |db.classes|
    modifies db
    ensures db.Valid()
    ensures r == if old(db.classes[i].slots) > 0 then Ok else NoSlots
    ensures |db.classes| == old(|db.classes|) && db.nextClassId == old(db.nextClassId)
    ensures forall j :: 0 <= j < |db.classes| && j != i ==> db.classes[j] == old(db.classes[j])
    ensures db.classes[i] == old(db.classes[i]).(slots := old(db.classes[i].slots) - if r == Ok then 1 else 0)
    ensures db.bookings == old(db.bookings) +
      if r == Ok then [BookingRow(old(db.nextBookingId), old(db.classes[i].id), Text(name), Text(email))] else []
    ensures db.nextBookingId == old(db.nextBookingId) + if r == Ok then 1 else 0
  {
    var body := Request(db.classes[i].id, name, email);
    assert body["class_id"] == Int(db.classes[i].id);
    assert ClassIdsIncreasing(db.classes);
    r := db.Book(body);
  }

  /** The booking rows that the first `n` of the requests, one per email,
      store for the class under consecutive booking ids from `first`. */
  function Requested(first: int, classId: int, name: string, emails: seq<string>, n: nat): (r: seq<BookingRow>)
    requires n <= |emails|
    ensures |r| == n
    ensures forall k :: 0 <= k < n ==> r[k] == BookingRow(first + k, classId, Text(name), Text(emails[k]))
    decreases n
  {
    if n == 0 then [] else Requested(first, classId, name, emails, n - 1) + [BookingRow(first + n - 1, classId, Text(name), Text(emails[n - 1]))]
  }

  /** Books the class at position `i` once per email, one request after the
      other: as many requests as the class has slots succeed, every later one
      is refused, and the class ends with its slots less the successes. */
  method BookRepeatedly(db: BookingLedger, i: nat, name: string, emails: seq<string>) returns (results: seq<BookResult>)
    requires db.Valid()
    requires i < |db.classes|
    modifies db
    ensures db.Valid()
    ensures |db.classes| == old(|db.classes|) && db.nextClassId == old(db.nextClassId)
    ensures forall j :: 0 <= j < |db.classes| && j != i ==> db.classes[j] == old(db.classes[j])
    ensures db.classes[i] == old(db.classes[i]).(slots := db.classes[i].slots)
    ensures var booked := if |emails| < old(db.classes[i].slots) then |emails| else old(db.classes[i].slots);
      && db.classes[i].slots == old(db.classes[i].slots) - booked
      && db.bookings == old(db.bookings) +
           Requested(old(db.nextBookingId), old(db.classes[i].id), name, emails, booked)
      && db.nextBookingId == old(db.nextBookingId) + booked
    ensures |results| == |emails|
    ensures forall k :: 0 <= k < |emails| ==> results[k] == if k < old(db.classes[i].slots) then Ok else NoSlots
  {
    ghost var start := db.classes;
    ghost var startBookings := db.bookings;
    ghost var startNext := db.nextBookingId;
    ghost var booked: nat := 0;
    results := [];
    var k := 0;
    while k < |emails|
      invariant 0 <= k <= |emails|
      invariant db.Valid() && db.nextClassId == old(db.nextClassId)
      invariant i < |start| && booked == if k < start[i].slots then k else start[i].slots
      invariant BookedSoFar(db, start, startBookings, startNext, i, name, emails, booked)
      invariant |results| == k
      invariant forall j :: 0 <= j < k ==> results[j] == if j < start[i].slots then Ok else NoSlots
    {
      var r;
      r, booked := BookNext(db, i, name, emails, k, start, startBookings, startNext, booked);
      results := results + [r];
      k := k + 1;
    }
  }

  /** The state after `booked` of the requests for the class at `i` have
      succeeded: that class has lost `booked` slots, every other class is as
      it was, and the first `booked` requests' rows follow the earlier bookings. */
  ghost predicate BookedSoFar(db: BookingLedger, start: seq<ClassRow>, startBookings: seq<BookingRow>, startNext: int,
                              i: nat, name: string, emails: seq<string>, booked: nat)
    reads db
  {
    && i < |start| && booked <= |emails|
    && |db.classes| == |start|
    && (forall j :: 0 <= j < |db.classes| && j != i ==> db.classes[j] == start[j])
    && db.classes[i] == start[i].(slots := start[i].slots - booked)
    && db.bookings == startBookings + Requested(startNext, start[i].id, name, emails, booked)
    && db.nextBookingId == startNext + booked
  }

  /** The `k`-th request of BookRepeatedly: Ok while the class had slots at
      the start of the run and `k` is below their number, NoSlots after. */
  method BookNext(db: BookingLedger, i: nat, name: string, emails: seq<string>, k: nat,
                  ghost start: seq<ClassRow>, ghost startBookings: seq<BookingRow>, ghost startNext: int, ghost booked: nat)
    returns (r: BookResult, ghost booked': nat)
    requires db.Valid()
    requires k < |emails| && i < |start| && booked == if k < start[i].slots then k else start[i].slots
    requires BookedSoFar(db, start, startBookings, startNext, i, name, emails, booked)
    modifies db
    ensures db.Valid() && db.nextClassId == old(db.nextClassId)
    ensures r == if k < start[i].slots then Ok else NoSlots
    ensures booked' == if k + 1 < start[i].slots then k + 1 else start[i].slots
    ensures BookedSoFar(db, start, startBookings, startNext, i, name, emails, booked')
  {
    r := BookPosition(db, i, name, emails[k]);
    if r == Ok {
      assert Requested(startNext, start[i].id, name, emails, booked + 1) ==
             Requested(startNext, start[i].id, name, emails, booked) +
             [BookingRow(startNext + booked, start[i].id, Text(name), Text(emails[k]))];
      booked' := booked + 1;
    } else {
      booked' := booked;
    }
  }

  /** The body of the sold-out test: ten bookings of class 1 and then one more. */
  method FillClassOne(db: BookingLedger) returns (firstTen: seq<BookResult>, eleventh: BookResult)
    requires db.Valid()
    requires |db.classes| >= 1 && db.classes[0].id == 1 && db.classes[0].slots == 10
    modifies db
    ensures db.Valid()
    ensures |db.classes| == old(|db.classes|) && db.classes[0].id == 1 && db.classes[0].slots == 0
    ensures db.nextClassId == old(db.nextClassId)
    ensures |firstTen| == 10 && forall k :: 0 <= k < 10 ==> firstTen[k] == Ok
    ensures eleventh == NoSlots
  {
    firstTen := BookRepeatedly(db, 0, "User", seq(10, k requires 0 <= k < 10 => UserEmail(k)));
    assert Request(1, "Extra User", "extra@example.com")["class_id"] == Int(db.classes[0].id);
    eleventh := db.Book(Request(1, "Extra User", "extra@example.com"));
  }

  /** Listing the classes without a timezone: the three sample classes in
      insertion order, dates in Asia/Kolkata, all slots available. */
  method GetClasses(yogaUtc: string, zumbaUtc: string, hiitUtc: string, convert: Converter)
    returns (views: seq<ClassView>)
    ensures views == [ClassView(1, "Yoga", convert(yogaUtc, Kolkata), "Anjali", 10),
                      ClassView(2, "Zumba", convert(zumbaUtc, Kolkata), "Ravi", 8),
                      ClassView(3, "HIIT", convert(hiitUtc, Kolkata), "Suresh", 5)]
  {
    var db := SetUpFresh(yogaUtc, zumbaUtc, hiitUtc);
    views := db.ListClasses(None, convert);
  }

  /** Booking class 1 once succeeds with status 201. */
  method BookClassSuccess(yogaUtc: string, zumbaUtc: string, hiitUtc: string) returns (r: BookResult)
    ensures r == Ok && Status(r) == 201
  {
    var db := SetUpFresh(yogaUtc, zumbaUtc, hiitUtc);
    assert Request(1, "Test User", "test@example.com")["class_id"] == Int(db.classes[0].id);
    r := db.Book(Request(1, "Test User", "test@example.com"));
  }

  /** Ten bookings of the 10-slot class succeed; the eleventh is refused with
      status 400 and the class shows 0 slots. */
  method BookClassNoSlots(yogaUtc: string, zumbaUtc: string, hiitUtc: string)
    returns (firstTen: seq<BookResult>, eleventh: BookResult, remaining: int)
    ensures |firstTen| == 10 && forall k :: 0 <= k < 10 ==> firstTen[k] == Ok
    ensures eleventh == NoSlots && Status(eleventh) == 400
    ensures remaining == 0
  {
    var db := SetUpFresh(yogaUtc, zumbaUtc, hiitUtc);
    firstTen, eleventh := FillClassOne(db);
    remaining := db.classes[0].slots;
  }

  /** After Alice books class 2, her listing is that one booking, of Zumba. */
  method GetBookingsByEmail(yogaUtc: string, zumbaUtc: string, hiitUtc: string, convert: Converter)
    returns (r: BookingsResult)
    ensures r == Found([BookingView(1, "Zumba", convert(zumbaUtc, Kolkata))])
  {
    var db := SetUpFresh(yogaUtc, zumbaUtc, hiitUtc);
    var alice := BookZumbaForAlice(db);
    AliceMatches(db.classes, alice);
    r := db.ListBookings(Some("alice@example.com"), convert);
    assert r.Found? && |r.views| == 1 && r.views[0].bookingId == 1;
    var j :| 0 <= j < |db.classes| && db.classes[j].id == 2 &&
             r.views[0].className == db.classes[j].name &&
             r.views[0].classTimeIst == convert(db.classes[j].datetimeUtc, Kolkata);
    assert j == 1;
    assert r.views == [BookingView(1, "Zumba", convert(zumbaUtc, Kolkata))];
  }

  /** Alice books class 2 on the fresh sample data. */
  method BookZumbaForAlice(db: BookingLedger) returns (alice: BookingRow)
    requires db.Valid()
    requires |db.classes| == 3 && db.classes[0].id == 1 && db.classes[1].id == 2 && db.classes[2].id == 3
    requires db.classes[1].slots > 0
    requires db.bookings == [] && db.nextBookingId == 1
    modifies db
    ensures db.Valid()
    ensures alice == BookingRow(1, 2, Text("Alice"), Text("alice@example.com"))
    ensures db.bookings == [alice]
    ensures |db.classes| == 3 && db.classes[0] == old(db.classes[0]) && db.classes[2] == old(db.classes[2])
    ensures db.classes[1] == old(db.classes[1]).(slots := old(db.classes[1].slots) - 1)
  {
    var body := Request(2, "Alice", "alice@example.com");
    assert body["class_id"] == Int(db.classes[1].id);
    var booked := db.Book(body);
    assert booked == Ok;
    alice := BookingRow(1, 2, Text("Alice"), Text("alice@example.com"));
  }

  /** The only booking, Alice's of class 2, is her one match. */
  lemma AliceMatches(cs: seq<ClassRow>, alice: BookingRow)
    requires |cs| == 3 && cs[1].id == 2
    requires alice == BookingRow(1, 2, Text("Alice"), Text("alice@example.com"))
    ensures Matching([alice], cs, "alice@example.com") == [alice]
  {
    assert HasClass(cs, 2) by {
      assert cs[1].id == 2;
    }
    assert [alice][1..] == [];
  }

  /** A request without `client_email` is refused with status 400. */
  method InvalidBookingMissingFields(yogaUtc: string, zumbaUtc: string, hiitUtc: string)
    returns (r: BookResult, bookings: seq<BookingRow>)
    ensures r == MissingFields && Status(r) == 400
    ensures bookings == []
  {
    var db := SetUpFresh(yogaUtc, zumbaUtc, hiitUtc);
    r := db.Book(map["class_id" := Int(1), "client_name" := Text("No Email")]);
    bookings := db.bookings;
  }

  /** Listing bookings without an email is refused. */
  method GetBookingsMissingEmailParam(yogaUtc: string, zumbaUtc: string, hiitUtc: string, convert: Converter)
    returns (r: BookingsResult)
    ensures r == EmailRequired
  {
    var db := SetUpFresh(yogaUtc, zumbaUtc, hiitUtc);
    r := db.ListBookings(None, convert);
  }

  /** The sold-out test followed by the success test against one database
      file, as the suite runs them (tests run in name order, and each set-up
      creates the tables only if they are missing and then inserts three more
      sample classes): the success test's booking of class 1 is refused. */
  method SuiteAsWritten(yogaUtc: string, zumbaUtc: string, hiitUtc: string) returns (success: BookResult)
    ensures success == NoSlots
  {
    var db := SetUpFresh(yogaUtc, zumbaUtc, hiitUtc);
    var firstTen, eleventh := FillClassOne(db);
    // The second set-up: the tables already exist, so only the sample
    // classes are inserted again, under ids 4, 5 and 6.
    db.Seed(yogaUtc, zumbaUtc, hiitUtc);
    assert Request(1, "Test User", "test@example.com")["class_id"] == Int(db.classes[0].id);
    success := db.Book(Request(1, "Test User", "test@example.com"));
  }

  /** The same two tests when each set-up starts from a new database file, as
      the set-up intends: both tests' expectations hold. */
  method SuiteWithFreshDatabase(yogaUtc: string, zumbaUtc: string, hiitUtc: string)
    returns (eleventh: BookResult, success: BookResult)
    ensures eleventh == NoSlots
    ensures success == Ok
  {
    var db := SetUpFresh(yogaUtc, zumbaUtc, hiitUtc);
    var firstTen;
    firstTen, eleventh := FillClassOne(db);
    db := SetUpFresh(yogaUtc, zumbaUtc, hiitUtc);
    assert Request(1, "Test User", "test@example.com")["class_id"] == Int(db.classes[0].id);
    success := db.Book(Request(1, "Test User", "test@example.com"));
  }
}
