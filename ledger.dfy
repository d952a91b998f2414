/** The booking ledger: the `classes` and `bookings` tables as sequences that
    the operations reassign, with one next-id counter per table standing in for
    AUTOINCREMENT. */
module Ledger {
  import opened Tables

  /** A class of the sample data: name, instructor, UTC start time and slots. */
  datatype Sample = Sample(name: string, instructor: string, datetimeUtc: string, slots: nat)

  /** The sample classes in insertion order; their start times come from the
      wall clock and are given as parameters. */
  function SampleClasses(yogaUtc: string, zumbaUtc: string, hiitUtc: string): (r: seq<Sample>)
    ensures |r| == 3
    ensures forall j, k :: 0 <= j < k < |r| ==> r[j].name != r[k].name
    ensures forall k :: 0 <= k < |r| ==> r[k].slots > 0
  {
    [Sample("Yoga", "Anjali", yogaUtc, 10), Sample("Zumba", "Ravi", zumbaUtc, 8), Sample("HIIT", "Suresh", hiitUtc, 5)]
  }

  /** The class rows the samples become when inserted from id `first` on. */
  function Numbered(ss: seq<Sample>, first: int): seq<ClassRow>
  {
    if ss == [] then []
    else
      var last := ss[|ss| - 1];
      Numbered(ss[..|ss| - 1], first) + [ClassRow(first + |ss| - 1, last.name, last.instructor, last.datetimeUtc, last.slots)]
  }

  /** The samples' slot counts, in order. */
  function SlotsOf(ss: seq<Sample>): seq<int>
  {
    if ss == [] then [] else SlotsOf(ss[..|ss| - 1]) + [ss[|ss| - 1].slots]
  }

  /** The rows and slot counts of the sample classes inserted from id `first` on. */
  lemma SampleRows(yogaUtc: string, zumbaUtc: string, hiitUtc: string, first: int)
    ensures Numbered(SampleClasses(yogaUtc, zumbaUtc, hiitUtc), first) ==
            [ClassRow(first, "Yoga", "Anjali", yogaUtc, 10),
             ClassRow(first + 1, "Zumba", "Ravi", zumbaUtc, 8),
             ClassRow(first + 2, "HIIT", "Suresh", hiitUtc, 5)]
    ensures SlotsOf(SampleClasses(yogaUtc, zumbaUtc, hiitUtc)) == [10, 8, 5]
  {
    var ss := SampleClasses(yogaUtc, zumbaUtc, hiitUtc);
    assert ss[..2][..1] == ss[..1];
    assert ss[..1][..0] == [];
    assert Numbered(ss[..1], first) == [ClassRow(first, "Yoga", "Anjali", yogaUtc, 10)];
    assert Numbered(ss[..2], first) == Numbered(ss[..1], first) + [ClassRow(first + 1, "Zumba", "Ravi", zumbaUtc, 8)];
    assert SlotsOf(ss[..1]) == [10];
    assert SlotsOf(ss[..2]) == [10, 8];
  }

  class BookingLedger {
    var classes: seq<ClassRow>
    var bookings: seq<BookingRow>
    var nextClassId: int
    var nextBookingId: int
    /** The slots each class had when it was inserted, position by position. */
    ghost var capacity: seq<int>

    ghost predicate Valid()
      reads this
    {
      LedgerInv(classes, bookings, capacity, nextClassId, nextBookingId)
    }

    /** A new database file: both tables empty, both counters at 1. */
    constructor ()
      ensures Valid()
      ensures classes == [] && bookings == [] && capacity == []
      ensures nextClassId == 1 && nextBookingId == 1
    {
      classes := [];
      bookings := [];
      nextClassId := 1;
      nextBookingId := 1;
      capacity := [];
    }

    /** Inserts one class row under the next class id. */
    method InsertClass(name: string, instructor: string, datetimeUtc: string, slots: int)
      requires Valid()
      requires slots >= 0
      modifies this
      ensures Valid()
      ensures classes == old(classes) + [ClassRow(old(nextClassId), name, instructor, datetimeUtc, slots)]
      ensures capacity == old(capacity) + [slots]
      ensures nextClassId == old(nextClassId) + 1
      ensures bookings == old(bookings) && nextBookingId == old(nextBookingId)
    {
      InsertClassPreserves(classes, bookings, capacity, nextClassId, nextBookingId, name, instructor, datetimeUtc, slots);
      classes := classes + [ClassRow(nextClassId, name, instructor, datetimeUtc, slots)];
      capacity := capacity + [slots];
      nextClassId := nextClassId + 1;
    }

    /** Inserts the sample classes Yoga/10, Zumba/8 and HIIT/5, in that order. */
    method Seed(yogaUtc: string, zumbaUtc: string, hiitUtc: string)
      requires Valid()
      modifies this
      ensures Valid()
      ensures classes == old(classes) + [ClassRow(old(nextClassId), "Yoga", "Anjali", yogaUtc, 10),
                                         ClassRow(old(nextClassId) + 1, "Zumba", "Ravi", zumbaUtc, 8),
                                         ClassRow(old(nextClassId) + 2, "HIIT", "Suresh", hiitUtc, 5)]
      ensures capacity == old(capacity) + [10, 8, 5]
      ensures nextClassId == old(nextClassId) + 3
      ensures bookings == old(bookings) && nextBookingId == old(nextBookingId)
    {
      ghost var first := nextClassId;
      InsertAll(SampleClasses(yogaUtc, zumbaUtc, hiitUtc));
      SampleRows(yogaUtc, zumbaUtc, hiitUtc, first);
    }

    /** Inserts the samples one after the other, in order. */
    method InsertAll(samples: seq<Sample>)
      requires Valid()
      modifies this
      ensures Valid()
      ensures classes == old(classes) + Numbered(samples, old(nextClassId))
      ensures capacity == old(capacity) + SlotsOf(samples)
      ensures nextClassId == old(nextClassId) + |samples|
      ensures bookings == old(bookings) && nextBookingId == old(nextBookingId)
    {
      ghost var classes0, capacity0, first, bookings0 := classes, capacity, nextClassId, bookings;
      var k := 0;
      while k < |samples|
        invariant 0 <= k <= |samples|
        invariant Valid()
        invariant classes == classes0 + Numbered(samples[..k], first)
        invariant capacity == capacity0 + SlotsOf(samples[..k])
        invariant nextClassId == first + k
        invariant bookings == bookings0 && nextBookingId == old(nextBookingId)
      {
        var s := samples[k];
        assert samples[..k + 1][..k] == samples[..k];
        InsertClass(s.name, s.instructor, s.datetimeUtc, s.slots);
        k := k + 1;
      }
      assert samples[..k] == samples;
    }

    /** A booking request: key presence, then class existence, then a remaining
        slot; only a request that passes all three appends a booking and
        decrements the class's slots. */
    method Book(body: Body) returns (r: BookResult)
      requires Valid()
      modifies this
      ensures Valid()
      ensures r == BookOutcome(old(classes), body)
      ensures capacity == old(capacity) && nextClassId == old(nextClassId)
      ensures r != Ok ==>
        classes == old(classes) && bookings == old(bookings) && nextBookingId == old(nextBookingId)
      ensures r == Ok ==>
        body["class_id"].Int? &&
        var id := body["class_id"].n;
        && bookings == old(bookings) + [BookingRow(old(nextBookingId), id, body["client_name"], body["client_email"])]
        && nextBookingId == old(nextBookingId) + 1
        && |classes| == |old(classes)|
        && forall j :: 0 <= j < |classes| ==>
             classes[j] == if old(classes)[j].id == id then old(classes)[j].(slots := old(classes)[j].slots - 1)
                           else old(classes)[j]
    {
      if !HasRequiredFields(body) {
        return MissingFields;
      }
      var key := ClassKey(body["class_id"]);
      var name := body["client_name"];
      var email := body["client_email"];
      if key.None? {
        return ClassNotFound;
      }
      var found := FindClass(classes, key.value);
      if found.None? {
        return ClassNotFound;
      }
      var i := found.value;
      if classes[i].slots <= 0 {
        return NoSlots;
      }
      Reserve(i, name, email);
      r := Ok;
    }

    /** The write of a successful booking: the booking row is inserted under the
        next booking id, then the class's slots are decremented. */
    method Reserve(i: nat, name: Field, email: Field)
      requires Valid()
      requires i < |classes| && classes[i].slots > 0
      modifies this
      ensures Valid()
      ensures bookings == old(bookings) + [BookingRow(old(nextBookingId), old(classes[i].id), name, email)]
      ensures nextBookingId == old(nextBookingId) + 1
      ensures capacity == old(capacity) && nextClassId == old(nextClassId)
      ensures |classes| == |old(classes)|
      ensures forall j :: 0 <= j < |classes| ==>
        classes[j] == if old(classes)[j].id == old(classes[i].id) then old(classes)[j].(slots := old(classes)[j].slots - 1)
                      else old(classes)[j]
    {
      BookStepPreserves(classes, bookings, capacity, nextClassId, nextBookingId, i, name, email);
      DecrementById(classes, i);
      bookings := bookings + [BookingRow(nextBookingId, classes[i].id, name, email)];
      nextBookingId := nextBookingId + 1;
      classes := classes[i := classes[i].(slots := classes[i].slots - 1)];
    }

    /** The class listing: one view per class in storage order, its start time
        converted to the requested timezone (Asia/Kolkata when none is given). */
    method ListClasses(timezone: Option<string>, convert: Converter) returns (views: seq<ClassView>)
      ensures |views| == |classes|
      ensures forall i :: 0 <= i < |classes| ==>
        views[i] == ClassView(classes[i].id, classes[i].name,
                              convert(classes[i].datetimeUtc, if timezone.Some? then timezone.value else Kolkata),
                              classes[i].instructor, classes[i].slots)
      ensures Valid() ==> forall i :: 0 <= i < |views| ==>
        0 <= views[i].availableSlots && views[i].availableSlots + CountFor(bookings, views[i].id) == capacity[i]
    {
      var zone := if timezone.Some? then timezone.value else Kolkata;
      var rows := classes;
      views := [];
      var k := 0;
      while k < |rows|
        invariant 0 <= k <= |rows|
        invariant |views| == k
        invariant forall i :: 0 <= i < k ==>
          views[i] == ClassView(rows[i].id, rows[i].name, convert(rows[i].datetimeUtc, zone), rows[i].instructor, rows[i].slots)
      {
        var row := rows[k];
        views := views + [ClassView(row.id, row.name, convert(row.datetimeUtc, zone), row.instructor, row.slots)];
        k := k + 1;
      }
    }

    /** A client's booking listing: an absent or empty email is refused;
        otherwise each booking with exactly that email, in storage order,
        joined with its class's name and its start time in Asia/Kolkata. */
    function ListBookings(email: Option<string>, convert: Converter): (r: BookingsResult)
      reads this
      ensures r == EmailRequired <==> email == None || email == Some("")
      ensures r.Found? ==>
        var m := Matching(bookings, classes, email.value);
        && |r.views| == |m|
        && forall k :: 0 <= k < |m| ==>
             r.views[k].bookingId == m[k].id &&
             exists j :: 0 <= j < |classes| && classes[j].id == m[k].classId &&
               r.views[k].className == classes[j].name &&
               r.views[k].classTimeIst == convert(classes[j].datetimeUtc, Kolkata)
    {
      if email == None || email == Some("") then EmailRequired
      else
        var cs := classes;
        var m := Matching(bookings, cs, email.value);
        Found(seq(|m|, k requires 0 <= k < |m| => ViewOf(m[k], cs, convert)))
    }
  }
}
