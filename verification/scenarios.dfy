/**
 * The behaviour the repository's tests describe, derived
 * from the model.
 */
module Scenarios {
  import opened Wrappers
  import opened Json
  import opened Dates
  import opened Hotels
  import opened Customers
  import opened Reservations

  /** The four-digit year field of the examples below. */
  lemma YearText()
    ensures Padded(2025, 4) == "2025"
  {
    assert Padded(2, 1) == "2";
    assert Padded(20, 2) == "20";
    assert Padded(202, 3) == "202";
  }

  /** A five-night stay in January is accepted (tests/test_reservation.py). */
  lemma ValidStay()
    ensures ValidateDates("2025-01-10", "2025-01-15").Some?
  {
    YearText();
    TwoDigits(1);
    TwoDigits(10);
    TwoDigits(15);
    assert "2025-01-10" == IsoText(Date(2025, 1, 10));
    assert "2025-01-15" == IsoText(Date(2025, 1, 15));
    ParseIsoText(Date(2025, 1, 10));
    ParseIsoText(Date(2025, 1, 15));
  }

  /** Same-day and inverted stays are refused. */
  lemma InvertedStays()
    ensures ValidateDates("2025-01-10", "2025-01-10").None?
    ensures ValidateDates("2025-01-15", "2025-01-10").None?
  {
    SameDayRejected("2025-01-10");
    ValidStay();
    SwappedRejected("2025-01-10", "2025-01-15");
  }

  /** Text that is not `YYYY-MM-DD` is refused. */
  lemma MalformedDates()
    ensures ParseDate("10-01-2025").None?
    ensures ParseDate("bad-date").None?
  {
    assert !IsDigit("10-01-2025"[..4][2]);
    assert !IsDigit("bad-date"[..4][0]);
  }

  /** Single-digit month and day fields are accepted. */
  lemma SingleDigitFields()
    ensures ParseDate("2025-1-5") == Some(Date(2025, 1, 5))
  {
    var s := "2025-1-5";
    YearText();
    assert s[..4] == Padded(2025, 4) && s[5..] == "1-5" && s[7..] == "5";
    PaddedValue(2025, 4);
  }

  /** February 29th exists in a leap year... */
  lemma LeapDay()
    ensures ParseDate("2024-02-29") == Some(Date(2024, 2, 29))
  {
    assert "2024-02-29" == IsoText(Date(2024, 2, 29));
    ParseIsoText(Date(2024, 2, 29));
  }

  /** ...and not in any other year. */
  lemma NoLeapDay()
    ensures ParseDate("2025-02-29").None?
  {
    var s := "2025-02-29";
    YearText();
    assert s[..4] == Padded(2025, 4) && s[5..] == "02-29" && s[8..] == "29";
    PaddedValue(2025, 4);
    assert MatchMonth(s[5..]) == Some((2, 2));
  }

  /** Shrinking a hotel with `modify` and then booking and cancelling a room loses the surplus rooms. */
  lemma ShrunkHotelLosesRooms()
    ensures Hotels.Modified(Hotel("H1", "Grand", "NYC", 4.5, 3, 3, []), [RecordStore.Kwarg("total_rooms", Int(1))])
            == Some(Hotel("H1", "Grand", "NYC", 4.5, 1, 3, []))
    ensures Release(Reserve(Hotel("H1", "Grand", "NYC", 4.5, 1, 3, []), "R1").value, "R1").value.availableRooms == 1
  {
    ReserveThenReleaseClamps(Hotel("H1", "Grand", "NYC", 4.5, 1, 3, []), "R1");
  }

  /** A one-room hotel with one customer and no reservations yet. */
  method OneRoomHotel() returns (hotels: HotelStore, customers: CustomerStore, reservations: ReservationStore)
    ensures fresh(hotels) && fresh(customers) && fresh(reservations)
    ensures hotels.hotels == map["H2" := Hotel("H2", "Small", "LA", 3.0, 1, 1, [])]
    ensures "C1" in customers.customers && reservations.reservations == map[]
  {
    hotels := new HotelStore(map[]);
    customers := new CustomerStore(map[]);
    reservations := new ReservationStore(map[]);
    var h := hotels.Create("H2", "Small", "LA", Float(3.0), Int(1));
    var c := customers.Create("C1", "Ana", "ana@example.com", "555");
  }

  /** The same hotel once "R1" holds its only room, for any stay `validate_dates` accepts. */
  method BookedHotel(checkIn: string, checkOut: string)
    returns (hotels: HotelStore, customers: CustomerStore, reservations: ReservationStore)
    requires ValidateDates(checkIn, checkOut).Some?
    ensures fresh(hotels) && fresh(customers) && fresh(reservations)
    ensures hotels.hotels.Keys == {"H2"}
    ensures hotels.hotels["H2"] == Hotel("H2", "Small", "LA", 3.0, 1, 0, [Str("R1")])
    ensures "C1" in customers.customers
    ensures reservations.reservations.Keys == {"R1"}
    ensures reservations.reservations["R1"].hotelId == "H2" && !IsCancelled(reservations.reservations["R1"])
  {
    hotels, customers, reservations := OneRoomHotel();
    assert [] + [Str("R1")] == [Str("R1")];
    var r1 := reservations.Create("R1", "C1", "H2", checkIn, checkOut, hotels, customers);
  }

  /** Once the only room is taken, the next reservation is refused. */
  method FullHotelRefuses(checkIn: string, checkOut: string) returns (second: CreateOutcome, freeRooms: int)
    requires ValidateDates(checkIn, checkOut).Some?
    ensures second == NoRoom && freeRooms == 0
  {
    var hotels, customers, reservations := BookedHotel(checkIn, checkOut);
    second := reservations.Create("R2", "C1", "H2", checkIn, checkOut, hotels, customers);
    freeRooms := hotels.hotels["H2"].availableRooms;
  }

  /** Cancelling frees the room, and cancelling the same reservation again is refused. */
  method CancelFreesRoom(checkIn: string, checkOut: string) returns (first: bool, again: bool, freeRooms: int)
    requires ValidateDates(checkIn, checkOut).Some?
    ensures first && !again && freeRooms == 1
  {
    var hotels, customers, reservations := BookedHotel(checkIn, checkOut);
    first := reservations.Cancel("R1", hotels);
    assert IsCancelled(reservations.reservations["R1"]);
    again := reservations.Cancel("R1", hotels);
    freeRooms := hotels.hotels["H2"].availableRooms;
  }

  /** The room a cancellation frees goes to the next reservation. */
  method RebookAfterCancel(checkIn: string, checkOut: string) returns (outcome: CreateOutcome, freeRooms: int)
    requires ValidateDates(checkIn, checkOut).Some?
    ensures outcome.Created? && outcome.reservation.status == ActiveStatus && freeRooms == 0
  {
    var hotels, customers, reservations := BookedHotel(checkIn, checkOut);
    var cancelled := reservations.Cancel("R1", hotels);
    assert hotels.hotels["H2"].availableRooms == 1;
    outcome := reservations.Create("R3", "C1", "H2", checkIn, checkOut, hotels, customers);
    freeRooms := hotels.hotels["H2"].availableRooms;
  }

  /** A reservation for an unknown customer is refused and the hotel keeps its rooms. */
  method UnknownCustomerLeavesInventory(checkIn: string, checkOut: string)
    returns (outcome: CreateOutcome, freeRooms: int)
    requires ValidateDates(checkIn, checkOut).Some?
    ensures outcome == UnknownCustomer && freeRooms == 5
  {
    var hotels := new HotelStore(map[]);
    var customers := new CustomerStore(map[]);
    var reservations := new ReservationStore(map[]);
    var h := hotels.Create("H1", "Grand", "NYC", Float(4.5), Int(5));
    outcome := reservations.Create("R1", "C999", "H1", checkIn, checkOut, hotels, customers);
    freeRooms := hotels.hotels["H1"].availableRooms;
  }
}
