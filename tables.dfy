/** The two tables of the booking service (classes and bookings), the shapes of
    its requests and responses, and the pure queries and facts that the ledger's
    operations are specified by. */
module Tables {

  datatype Option<+T> = None | Some(value: T)

  /** A value in a JSON request body. Only integers and strings are modelled. */
  datatype Field = Int(n: int) | Text(s: string)

  /** A decoded JSON request body: keys to values. */
  type Body = map<string, Field>

  /** Conversion of a stored UTC timestamp string into a timezone, given by its
      IANA name, as a display string. It is left uninterpreted. */
  type Converter = (string, string) -> string

  /** The default display timezone of the class listing and the fixed one of
      the booking listing. */
  const Kolkata: string := "Asia/Kolkata"

  /** The keys a booking request must contain. */
  const RequiredKeys: seq<string> := ["class_id", "client_name", "client_email"]

  /** A row of the `classes` table. */
  datatype ClassRow = ClassRow(id: int, name: string, instructor: string, datetimeUtc: string, slots: int)

  /** A row of the `bookings` table. */
  datatype BookingRow = BookingRow(id: int, classId: int, clientName: Field, clientEmail: Field)

  /** The outcome of a booking request. */
  datatype BookResult = Ok | MissingFields | ClassNotFound | NoSlots

  /** One entry of the class listing. */
  datatype ClassView = ClassView(id: int, name: string, datetime: string, instructor: string, availableSlots: int)

  /** One entry of a client's booking listing. */
  datatype BookingView = BookingView(bookingId: int, className: string, classTimeIst: string)

  /** The outcome of a booking listing request. */
  datatype BookingsResult = EmailRequired | Found(views: seq<BookingView>)

  /** The HTTP status code the booking route answers with. */
  function Status(r: BookResult): (code: int)
    ensures code == 201 <==> r == Ok
    ensures code == 404 <==> r == ClassNotFound
    ensures code in {201, 400, 404}
  {
    match r
    case Ok => 201
    case MissingFields => 400
    case ClassNotFound => 404
    case NoSlots => 400
  }

  /** Whether every required key is present; the values are not inspected. */
  function HasRequiredFields(body: Body): (r: bool)
    ensures r <==> "class_id" in body && "client_name" in body && "client_email" in body
  {
    forall k :: k in RequiredKeys ==> k in body
  }

  /** The class id a request value denotes, if any. */
  function ClassKey(v: Field): (r: Option<int>)
    ensures r.Some? <==> v.Int?
    ensures v.Int? ==> r == Some(v.n)
  {
    match v
    case Int(n) => Some(n)
    case Text(_) => None
  }

  /** Whether some class row carries the id. */
  predicate HasClass(cs: seq<ClassRow>, id: int)
  {
    exists j :: 0 <= j < |cs| && cs[j].id == id
  }

  /** The position of the first class row with the id (`SELECT ... WHERE id=?`). */
  function FindClass(cs: seq<ClassRow>, id: int): (r: Option<nat>)
    ensures r.Some? ==> r.value < |cs| && cs[r.value].id == id
    ensures r.Some? ==> forall j :: 0 <= j < r.value ==> cs[j].id != id
    ensures r.None? <==> forall j :: 0 <= j < |cs| ==> cs[j].id != id
    ensures r.Some? <==> HasClass(cs, id)
    decreases |cs|
  {
    if cs == [] then None
    else if cs[0].id == id then Some(0)
    else
      match FindClass(cs[1..], id)
      case None => None
      case Some(i) => Some(i + 1)
  }

  predicate ClassIdsIncreasing(cs: seq<ClassRow>)
  {
    forall i, j :: 0 <= i < j < |cs| ==> cs[i].id < cs[j].id
  }

  predicate BookingIdsIncreasing(bs: seq<BookingRow>)
  {
    forall i, j :: 0 <= i < j < |bs| ==> bs[i].id < bs[j].id
  }

  /** The outcome of a booking request against the class table: the checks run
      in the order key presence, class existence, remaining slots. */
  function BookOutcome(cs: seq<ClassRow>, body: Body): (r: BookResult)
    ensures r == MissingFields <==> !HasRequiredFields(body)
    ensures r == ClassNotFound <==>
      HasRequiredFields(body) && forall j :: 0 <= j < |cs| ==> ClassKey(body["class_id"]) != Some(cs[j].id)
    ensures ClassIdsIncreasing(cs) ==>
      (r == NoSlots <==>
        (HasRequiredFields(body) &&
         exists j :: 0 <= j < |cs| && ClassKey(body["class_id"]) == Some(cs[j].id) && cs[j].slots <= 0))
    ensures ClassIdsIncreasing(cs) ==>
      (r == Ok <==>
        (HasRequiredFields(body) &&
         exists j :: 0 <= j < |cs| && ClassKey(body["class_id"]) == Some(cs[j].id) && cs[j].slots > 0))
  {
    if !HasRequiredFields(body) then MissingFields
    else
      match ClassKey(body["class_id"])
      case None => ClassNotFound
      case Some(id) =>
        match FindClass(cs, id)
        case None => ClassNotFound
        case Some(i) =>
          assert ClassIdsIncreasing(cs) ==> forall j :: 0 <= j < |cs| && cs[j].id == id ==> j == i;
          if cs[i].slots <= 0 then NoSlots else Ok
  }

  /** The number of bookings that reference the class. */
  function CountFor(bs: seq<BookingRow>, classId: int): nat
    decreases |bs|
  {
    if bs == [] then 0
    else (if bs[0].classId == classId then 1 else 0) + CountFor(bs[1..], classId)
  }

  /** No booking references the class exactly when it has no bookings. */
  lemma {:induction false} CountZero(bs: seq<BookingRow>, classId: int)
    ensures CountFor(bs, classId) == 0 <==> forall k :: 0 <= k < |bs| ==> bs[k].classId != classId
    decreases |bs|
  {
    if bs != [] {
      CountZero(bs[1..], classId);
      assert forall k :: 1 <= k < |bs| ==> bs[k] == bs[1..][k - 1];
    }
  }

  lemma {:induction false} CountAppend(bs: seq<BookingRow>, b: BookingRow, classId: int)
    ensures CountFor(bs + [b], classId) == CountFor(bs, classId) + (if b.classId == classId then 1 else 0)
    decreases |bs|
  {
    if bs == [] {
      assert [] + [b] == [b];
      assert [b][1..] == [];
    } else {
      assert (bs + [b])[0] == bs[0];
      assert (bs + [b])[1..] == bs[1..] + [b];
      CountAppend(bs[1..], b, classId);
    }
  }

  /** The consistency of the two tables, with `cap[i]` the slots class `i` had
      when it was inserted:
      - ids in each table are increasing in storage order (so unique) and below
        the table's next id;
      - every booking references an existing class;
      - no class has negative slots;
      - each class's slots plus the number of its bookings is its inserted slots. */
  ghost predicate LedgerInv(cs: seq<ClassRow>, bs: seq<BookingRow>, cap: seq<int>, nextClass: int, nextBooking: int)
  {
    && |cap| == |cs|
    && 1 <= nextClass && 1 <= nextBooking
    && ClassIdsIncreasing(cs)
    && (forall i :: 0 <= i < |cs| ==> 1 <= cs[i].id < nextClass)
    && BookingIdsIncreasing(bs)
    && (forall i :: 0 <= i < |bs| ==> 1 <= bs[i].id < nextBooking)
    && (forall i :: 0 <= i < |bs| ==> HasClass(cs, bs[i].classId))
    && (forall i :: 0 <= i < |cs| ==> cs[i].slots >= 0)
    && (forall i :: 0 <= i < |cs| ==> cs[i].slots + CountFor(bs, cs[i].id) == cap[i])
  }

  /** Inserting a class with non-negative slots under a fresh id keeps the invariant. */
  lemma InsertClassPreserves(cs: seq<ClassRow>, bs: seq<BookingRow>, cap: seq<int>, nextClass: int, nextBooking: int,
                             name: string, instructor: string, datetimeUtc: string, slots: int)
    requires LedgerInv(cs, bs, cap, nextClass, nextBooking)
    requires slots >= 0
    ensures LedgerInv(cs + [ClassRow(nextClass, name, instructor, datetimeUtc, slots)], bs,
                      cap + [slots], nextClass + 1, nextBooking)
  {
    var cs' := cs + [ClassRow(nextClass, name, instructor, datetimeUtc, slots)];
    forall k | 0 <= k < |bs| ensures bs[k].classId != nextClass && HasClass(cs', bs[k].classId) {
      var j :| 0 <= j < |cs| && cs[j].id == bs[k].classId;
      assert cs'[j] == cs[j];
    }
    CountZero(bs, nextClass);
  }

  /** A successful booking (one booking appended under the next id, the class's
      slots decremented) keeps the invariant. */
  lemma BookStepPreserves(cs: seq<ClassRow>, bs: seq<BookingRow>, cap: seq<int>, nextClass: int, nextBooking: int,
                          i: nat, name: Field, email: Field)
    requires LedgerInv(cs, bs, cap, nextClass, nextBooking)
    requires i < |cs| && cs[i].slots > 0
    ensures LedgerInv(cs[i := cs[i].(slots := cs[i].slots - 1)],
                      bs + [BookingRow(nextBooking, cs[i].id, name, email)], cap, nextClass, nextBooking + 1)
  {
    var cs' := cs[i := cs[i].(slots := cs[i].slots - 1)];
    var b := BookingRow(nextBooking, cs[i].id, name, email);
    var bs' := bs + [b];
    assert ClassIdsIncreasing(cs') by {
      forall j, k | 0 <= j < k < |cs'| ensures cs'[j].id < cs'[k].id {
        assert cs'[j].id == cs[j].id && cs'[k].id == cs[k].id;
      }
    }
    assert forall j :: 0 <= j < |cs'| ==> cs'[j].id == cs[j].id;
    assert BookingIdsIncreasing(bs') by {
      forall j, k | 0 <= j < k < |bs'| ensures bs'[j].id < bs'[k].id {
        assert bs'[j] == bs[j];
        if k < |bs| {
          assert bs'[k] == bs[k];
        }
      }
    }
    assert forall k :: 0 <= k < |bs'| ==> 1 <= bs'[k].id < nextBooking + 1 by {
      forall k | 0 <= k < |bs'| ensures 1 <= bs'[k].id < nextBooking + 1 {
        if k < |bs| {
          assert bs'[k] == bs[k];
        }
      }
    }
    forall j | 0 <= j < |cs'| ensures cs'[j].slots >= 0 && cs'[j].slots + CountFor(bs', cs'[j].id) == cap[j] {
      CountAppend(bs, b, cs[j].id);
      if j != i {
        assert cs'[j] == cs[j];
        assert cs[j].id != cs[i].id by {
          if j < i {
            assert cs[j].id < cs[i].id;
          } else {
            assert cs[i].id < cs[j].id;
          }
        }
      }
    }
    forall k | 0 <= k < |bs'| ensures HasClass(cs', bs'[k].classId) {
      if k == |bs| {
        assert cs'[i].id == b.classId;
      } else {
        assert bs'[k] == bs[k];
        var j :| 0 <= j < |cs| && cs[j].id == bs[k].classId;
        assert cs'[j].id == cs[j].id;
      }
    }
  }

  /** With unique class ids, decrementing the slots at one position is the
      `UPDATE ... WHERE id = ?` of that position's id. */
  lemma DecrementById(cs: seq<ClassRow>, i: nat)
    requires ClassIdsIncreasing(cs)
    requires i < |cs|
    ensures var cs' := cs[i := cs[i].(slots := cs[i].slots - 1)];
      forall j :: 0 <= j < |cs'| ==>
        cs'[j] == if cs[j].id == cs[i].id then cs[j].(slots := cs[j].slots - 1) else cs[j]
  {
    var cs' := cs[i := cs[i].(slots := cs[i].slots - 1)];
    forall j | 0 <= j < |cs'|
      ensures cs'[j] == if cs[j].id == cs[i].id then cs[j].(slots := cs[j].slots - 1) else cs[j]
    {
      if j < i {
        assert cs[j].id < cs[i].id;
      } else if j > i {
        assert cs[i].id < cs[j].id;
      }
    }
  }

  /** The bookings whose email is exactly `email` and whose class exists (the
      join with `WHERE b.client_email = ?`), in storage order. */
  function Matching(bs: seq<BookingRow>, cs: seq<ClassRow>, email: string): (r: seq<BookingRow>)
    ensures forall b :: b in r <==> b in bs && b.clientEmail == Text(email) && HasClass(cs, b.classId)
    ensures BookingIdsIncreasing(bs) ==> BookingIdsIncreasing(r)
    decreases |bs|
  {
    if bs == [] then []
    else
      var rest := Matching(bs[1..], cs, email);
      MatchingStep(bs, cs, email, rest);
      if bs[0].clientEmail == Text(email) && HasClass(cs, bs[0].classId) then [bs[0]] + rest else rest
  }

  /** One step of Matching: the head of `bs` put in front of the matches of its tail. */
  lemma MatchingStep(bs: seq<BookingRow>, cs: seq<ClassRow>, email: string, rest: seq<BookingRow>)
    requires bs != []
    requires forall b :: b in rest <==> b in bs[1..] && b.clientEmail == Text(email) && HasClass(cs, b.classId)
    requires BookingIdsIncreasing(bs[1..]) ==> BookingIdsIncreasing(rest)
    ensures var r := if bs[0].clientEmail == Text(email) && HasClass(cs, bs[0].classId) then [bs[0]] + rest else rest;
      (forall b :: b in r <==> b in bs && b.clientEmail == Text(email) && HasClass(cs, b.classId)) &&
      (BookingIdsIncreasing(bs) ==> BookingIdsIncreasing(r))
  {
    assert bs == [bs[0]] + bs[1..];
    if BookingIdsIncreasing(bs) {
      TailIncreasing(bs);
      forall b | b in bs[1..] ensures bs[0].id < b.id {
        var m :| 0 <= m < |bs[1..]| && bs[1..][m] == b;
        assert bs[m + 1] == b;
      }
      PrependIncreasing(bs[0], rest);
    }
  }

  lemma TailIncreasing(bs: seq<BookingRow>)
    requires bs != [] && BookingIdsIncreasing(bs)
    ensures BookingIdsIncreasing(bs[1..])
  {
    forall j, k | 0 <= j < k < |bs[1..]| ensures bs[1..][j].id < bs[1..][k].id {
      assert bs[1..][j] == bs[j + 1] && bs[1..][k] == bs[k + 1];
    }
  }

  lemma PrependIncreasing(b: BookingRow, rest: seq<BookingRow>)
    requires BookingIdsIncreasing(rest)
    requires forall x :: x in rest ==> b.id < x.id
    ensures BookingIdsIncreasing([b] + rest)
  {
    var r := [b] + rest;
    forall j, k | 0 <= j < k < |r| ensures r[j].id < r[k].id {
      assert r[k] == rest[k - 1] && rest[k - 1] in rest;
      if j > 0 {
        assert r[j] == rest[j - 1];
      }
    }
  }

  /** Appending a booking extends the matching bookings by that booking exactly
      when it matches. */
  lemma {:induction false} MatchingAppend(bs: seq<BookingRow>, b: BookingRow, cs: seq<ClassRow>, email: string)
    ensures Matching(bs + [b], cs, email) ==
            Matching(bs, cs, email) + (if b.clientEmail == Text(email) && HasClass(cs, b.classId) then [b] else [])
    decreases |bs|
  {
    if bs == [] {
      assert [] + [b] == [b];
      assert [b][1..] == [];
    } else {
      assert (bs + [b])[0] == bs[0];
      assert (bs + [b])[1..] == bs[1..] + [b];
      MatchingAppend(bs[1..], b, cs, email);
    }
  }

  /** Decrementing a class's slots changes no class id, so it changes no join. */
  lemma {:induction false} MatchingIgnoresSlots(bs: seq<BookingRow>, cs: seq<ClassRow>, i: nat, slots: int, email: string)
    requires i < |cs|
    ensures Matching(bs, cs[i := cs[i].(slots := slots)], email) == Matching(bs, cs, email)
    decreases |bs|
  {
    var cs' := cs[i := cs[i].(slots := slots)];
    if bs != [] {
      MatchingIgnoresSlots(bs[1..], cs, i, slots, email);
      assert HasClass(cs', bs[0].classId) <==> HasClass(cs, bs[0].classId) by {
        if HasClass(cs, bs[0].classId) {
          var j :| 0 <= j < |cs| && cs[j].id == bs[0].classId;
          assert cs'[j].id == cs[j].id;
        }
        if HasClass(cs', bs[0].classId) {
          var j :| 0 <= j < |cs'| && cs'[j].id == bs[0].classId;
          assert cs'[j].id == cs[j].id;
        }
      }
    }
  }

  /** A successful booking changes the matching bookings of exactly one email,
      its own, by appending the new booking; every other email's are unchanged. */
  lemma ListingAfterBook(bs: seq<BookingRow>, cs: seq<ClassRow>, i: nat, b: BookingRow, email: string)
    requires i < |cs| && b.classId == cs[i].id
    ensures Matching(bs + [b], cs[i := cs[i].(slots := cs[i].slots - 1)], email) ==
            Matching(bs, cs, email) + (if b.clientEmail == Text(email) then [b] else [])
  {
    var cs' := cs[i := cs[i].(slots := cs[i].slots - 1)];
    MatchingAppend(bs, b, cs', email);
    MatchingIgnoresSlots(bs, cs, i, cs[i].slots - 1, email);
    assert cs'[i].id == b.classId;
  }

  /** The view of a booking joined with its class. */
  function ViewOf(b: BookingRow, cs: seq<ClassRow>, convert: Converter): (v: BookingView)
    requires HasClass(cs, b.classId)
    ensures v.bookingId == b.id
    ensures exists j :: 0 <= j < |cs| && cs[j].id == b.classId &&
                        v.className == cs[j].name && v.classTimeIst == convert(cs[j].datetimeUtc, Kolkata)
  {
    var c := cs[FindClass(cs, b.classId).value];
    BookingView(b.id, c.name, convert(c.datetimeUtc, Kolkata))
  }
}
