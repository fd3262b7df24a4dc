/**
 * The reservation record, its store and its lifecycle, which couples the
 * reservation store to the hotel ledger (hotel_system/reservation.py).
 */
module Reservations {
  import opened Wrappers
  import opened Json
  import RecordStore
  import opened Dates
  import opened Hotels
  import opened Customers

  /**
   * A reservation. `status` keeps the stored value as `from_dict` reads it,
   * without coercion; only the text "cancelled" counts as cancelled.
   */
  datatype Reservation = Reservation(
    reservationId: string,
    customerId: string,
    hotelId: string,
    checkIn: string,
    checkOut: string,
    status: Value)

  const ActiveStatus: Value := Str("active")
  const CancelledStatus: Value := Str("cancelled")

  /** The keys `from_dict` cannot do without; `status` is optional. */
  const RequiredKeys: set<string> := {"reservation_id", "customer_id", "hotel_id", "check_in", "check_out"}

  predicate IsCancelled(r: Reservation)
  {
    r.status == CancelledStatus
  }

  /** `Reservation(...)`: every field through `str`, status "active". */
  function NewReservation(reservationId: Value, customerId: Value, hotelId: Value, checkIn: Value, checkOut: Value)
    : (r: Reservation)
    ensures r.status == ActiveStatus && !IsCancelled(r)
    ensures r.reservationId == AsText(reservationId) && r.customerId == AsText(customerId)
    ensures r.hotelId == AsText(hotelId) && r.checkIn == AsText(checkIn) && r.checkOut == AsText(checkOut)
    ensures reservationId.Str? ==> r.reservationId == reservationId.s
    ensures hotelId.Str? ==> r.hotelId == hotelId.s
  {
    Reservation(AsText(reservationId), AsText(customerId), AsText(hotelId), AsText(checkIn), AsText(checkOut),
                ActiveStatus)
  }

  /** `to_dict`: one entry per attribute, under the attribute's own name; `status` as stored. */
  function ToDict(r: Reservation): (v: Value)
    ensures v.Object? && v.fields.Keys == RequiredKeys + {"status"}
    ensures v.Object? ==>
      && v.fields["reservation_id"] == Str(r.reservationId) && v.fields["customer_id"] == Str(r.customerId)
      && v.fields["hotel_id"] == Str(r.hotelId) && v.fields["check_in"] == Str(r.checkIn)
      && v.fields["check_out"] == Str(r.checkOut) && v.fields["status"] == r.status
  {
    Object(map[
      "reservation_id" := Str(r.reservationId),
      "customer_id" := Str(r.customerId),
      "hotel_id" := Str(r.hotelId),
      "check_in" := Str(r.checkIn),
      "check_out" := Str(r.checkOut),
      "status" := r.status])
  }

  /**
   * `from_dict`: None when the record is not a dict or lacks a required key;
   * a missing `status` reads as "active".
   */
  function FromDict(data: Value): (r: Option<Reservation>)
    ensures r.Some? <==> data.Object? && RequiredKeys <= data.fields.Keys
    ensures r.Some? && "status" !in data.fields ==> r.value.status == ActiveStatus
    ensures r.Some? && "status" in data.fields ==> r.value.status == data.fields["status"]
  {
    if data.Object? && RequiredKeys <= data.fields.Keys then
      var f := data.fields;
      var res := NewReservation(f["reservation_id"], f["customer_id"], f["hotel_id"], f["check_in"], f["check_out"]);
      Some(res.(status := RecordStore.GetOr(f, "status", ActiveStatus)))
    else None
  }

  /** `from_dict(to_dict(r))` reproduces `r` field for field. */
  lemma DictRoundTrip(r: Reservation)
    ensures FromDict(ToDict(r)) == Some(r)
  {
  }

  /** Saving a reservation collection and loading it again gives it back unchanged. */
  lemma SaveLoadRoundTrip(m: map<string, Reservation>)
    ensures RecordStore.Loaded(RecordStore.Saved(m, ToDict), FromDict) == Some(m)
  {
    forall r: Reservation ensures FromDict(ToDict(r)) == Some(r) {
      DictRoundTrip(r);
    }
    RecordStore.SaveLoadRoundTrip(m, ToDict, FromDict);
  }

  // ---------------------------------------------------------------------------
  // Inventory and reservations agree
  // ---------------------------------------------------------------------------

  /** `v` is the id of a reservation, not cancelled, that holds a room at hotel `hotelId`. */
  predicate HoldsRoom(rs: map<string, Reservation>, hotelId: string, v: Value)
  {
    v.Str? && v.s in rs && !IsCancelled(rs[v.s]) && rs[v.s].hotelId == hotelId
  }

  predicate NoDuplicates(s: seq<Value>)
  {
    forall i, j :: 0 <= i < j < |s| ==> s[i] != s[j]
  }

  /**
   * The agreement the lifecycle keeps between the two stores: each hotel's
   * ledger satisfies its equation and lists distinct ids, each of them a live
   * reservation at that hotel, and every live reservation is listed by the
   * hotel it names.
   */
  ghost predicate Linked(hs: map<string, Hotel>, rs: map<string, Reservation>)
  {
    && (forall hk :: hk in hs ==> Consistent(hs[hk]) && NoDuplicates(hs[hk].reservations))
    && (forall hk, v :: hk in hs && v in hs[hk].reservations ==> HoldsRoom(rs, hk, v))
    && (forall rid :: rid in rs && !IsCancelled(rs[rid]) ==>
          rs[rid].hotelId in hs && Str(rid) in hs[rs[rid].hotelId].reservations)
  }

  /** The live reservations at hotel `hotelId`. */
  ghost function LiveAt(rs: map<string, Reservation>, hotelId: string): set<string>
  {
    set rid | rid in rs && !IsCancelled(rs[rid]) && rs[rid].hotelId == hotelId
  }

  /** The string ids a ledger holds. */
  function Ids(s: seq<Value>): (ids: set<string>)
    ensures forall id :: id in ids <==> Str(id) in s
  {
    if s == [] then {}
    else (if s[0].Str? then {s[0].s} else {}) + Ids(s[1..])
  }

  lemma {:induction false} DistinctIdsCount(s: seq<Value>)
    requires NoDuplicates(s)
    requires forall i :: 0 <= i < |s| ==> s[i].Str?
    ensures |Ids(s)| == |s|
  {
    if s != [] {
      var rest := s[1..];
      assert NoDuplicates(rest) by {
        forall i, j | 0 <= i < j < |rest| ensures rest[i] != rest[j] {
          assert rest[i] == s[i + 1] && rest[j] == s[j + 1];
        }
      }
      forall i | 0 <= i < |rest| ensures rest[i].Str? {
        assert rest[i] == s[i + 1];
      }
      DistinctIdsCount(rest);
      forall j | 0 <= j < |rest| ensures rest[j] != s[0] {
        assert rest[j] == s[j + 1];
      }
      assert s[0] == Str(s[0].s);
      assert s[0].s !in Ids(rest);
      assert Ids(s) == {s[0].s} + Ids(rest);
    }
  }

  /**
   * Where the stores agree, every hotel's free rooms and live reservations
   * add up to its size.
   */
  lemma LinkedRoomCount(hs: map<string, Hotel>, rs: map<string, Reservation>, hotelId: string)
    requires Linked(hs, rs) && hotelId in hs
    ensures hs[hotelId].availableRooms + |LiveAt(rs, hotelId)| == hs[hotelId].totalRooms
  {
    var ledger := hs[hotelId].reservations;
    forall i | 0 <= i < |ledger| ensures ledger[i].Str? {
      assert HoldsRoom(rs, hotelId, ledger[i]);
    }
    DistinctIdsCount(ledger);
    forall id ensures id in Ids(ledger) <==> id in LiveAt(rs, hotelId) {
      if id in Ids(ledger) {
        assert HoldsRoom(rs, hotelId, Str(id));
      }
    }
    assert Ids(ledger) == LiveAt(rs, hotelId);
  }

  /** Past the removed occurrence, every element moves one place down. */
  lemma RemoveFirstShift(s: seq<Value>, x: Value)
    requires x in s
    ensures var r := RemoveFirst(s, x);
      forall k :: 0 <= k < |r| ==> r[k] == s[if k < FirstIndex(s, x) then k else k + 1]
  {
    var i := FirstIndex(s, x);
    assert RemoveFirst(s, x) == s[..i] + s[i + 1..];
  }

  /** Removing the first occurrence from a ledger of distinct ids removes that id and only it. */
  lemma RemoveFirstDistinct(s: seq<Value>, x: Value)
    requires x in s && NoDuplicates(s)
    ensures NoDuplicates(RemoveFirst(s, x))
    ensures forall v :: v in RemoveFirst(s, x) <==> v in s && v != x
  {
    var i := FirstIndex(s, x);
    var r := RemoveFirst(s, x);
    RemoveFirstShift(s, x);
    forall a, b | 0 <= a < b < |r| ensures r[a] != r[b] {
      assert r[a] == s[if a < i then a else a + 1];
      assert r[b] == s[if b < i then b else b + 1];
    }
    forall v ensures v in r <==> v in s && v != x {
      if v in s && v != x {
        var j :| 0 <= j < |s| && s[j] == v;
        if j < i { assert r[j] == v; } else { assert r[j - 1] == v; }
      }
      if v in r {
        var k :| 0 <= k < |r| && r[k] == v;
        assert v == s[if k < i then k else k + 1];
      }
    }
  }

  /** A successful `create` keeps the two stores in agreement. */
  lemma CreateKeepsLinked(hs: map<string, Hotel>, rs: map<string, Reservation>, res: Reservation)
    requires Linked(hs, rs)
    requires res.reservationId !in rs && !IsCancelled(res)
    requires res.hotelId in hs && hs[res.hotelId].availableRooms > 0
    ensures Linked(hs[res.hotelId := Reserve(hs[res.hotelId], res.reservationId).value],
                   rs[res.reservationId := res])
  {
    var rid, hid := res.reservationId, res.hotelId;
    var hs', rs' := hs[hid := Reserve(hs[hid], rid).value], rs[rid := res];
    var ledger := hs[hid].reservations;
    forall v | v in ledger ensures v != Str(rid) {
      assert HoldsRoom(rs, hid, v);
    }
    assert NoDuplicates(hs'[hid].reservations) by {
      var l' := hs'[hid].reservations;
      forall i, j | 0 <= i < j < |l'| ensures l'[i] != l'[j] {
        if j == |ledger| { assert l'[i] in ledger; }
      }
    }
    forall hk, v | hk in hs' && v in hs'[hk].reservations ensures HoldsRoom(rs', hk, v) {
      if v != Str(rid) {
        assert v in hs[hk].reservations;
        assert HoldsRoom(rs, hk, v);
      }
    }
    forall r | r in rs' && !IsCancelled(rs'[r])
      ensures rs'[r].hotelId in hs' && Str(r) in hs'[rs'[r].hotelId].reservations
    {
      if r != rid {
        assert Str(r) in hs[rs[r].hotelId].reservations;
      }
    }
  }

  /**
   * Under agreement, `cancel` of a live reservation always finds its id in
   * the ledger of its hotel, and the stores still agree afterwards.
   */
  lemma CancelKeepsLinked(hs: map<string, Hotel>, rs: map<string, Reservation>, rid: string)
    requires Linked(hs, rs)
    requires rid in rs && !IsCancelled(rs[rid])
    ensures rs[rid].hotelId in hs && Release(hs[rs[rid].hotelId], rid).Some?
    ensures Linked(hs[rs[rid].hotelId := Release(hs[rs[rid].hotelId], rid).value],
                   rs[rid := rs[rid].(status := CancelledStatus)])
  {
    var hid := rs[rid].hotelId;
    var hs', rs' := hs[hid := Release(hs[hid], rid).value], rs[rid := rs[rid].(status := CancelledStatus)];
    RemoveFirstDistinct(hs[hid].reservations, Str(rid));
    forall hk, v | hk in hs' && v in hs'[hk].reservations ensures HoldsRoom(rs', hk, v) {
      assert v in hs[hk].reservations;
      assert HoldsRoom(rs, hk, v);
    }
    forall r | r in rs' && !IsCancelled(rs'[r])
      ensures rs'[r].hotelId in hs' && Str(r) in hs'[rs'[r].hotelId].reservations
    {
      assert Str(r) in hs[rs[r].hotelId].reservations;
    }
  }

  /** Adding a hotel under a new id, with every room free, keeps the stores in agreement. */
  lemma NewHotelKeepsLinked(hs: map<string, Hotel>, rs: map<string, Reservation>, hotelId: string, h: Hotel)
    requires Linked(hs, rs) && hotelId !in hs
    requires h.reservations == [] && h.availableRooms == h.totalRooms
    ensures Linked(hs[hotelId := h], rs)
  {
    var hs' := hs[hotelId := h];
    forall hk, v | hk in hs' && v in hs'[hk].reservations ensures HoldsRoom(rs, hk, v) {
      assert hk != hotelId;
    }
  }

  // ---------------------------------------------------------------------------
  // The store and the lifecycle
  // ---------------------------------------------------------------------------

  /** The outcome of `create`; each refusal is a `None` return in the source. */
  datatype CreateOutcome =
    | Created(reservation: Reservation)
    | InvalidDates        // a date does not parse, or check-out is not after check-in
    | DuplicateId         // the reservation id is already stored
    | UnknownCustomer     // no customer has that id
    | NoRoom              // `reserve_room` refused: unknown hotel or no free room

  /** The reservation collection, as `load_all` hands it to each operation. */
  class ReservationStore {
    var reservations: map<string, Reservation>

    constructor (loaded: map<string, Reservation>)
      ensures reservations == loaded
    {
      reservations := loaded;
    }

    /** `get`: the stored record, or None. */
    function Get(reservationId: string): (r: Option<Reservation>)
      reads this
      ensures r.Some? <==> reservationId in reservations
      ensures r.Some? ==> r.value == reservations[reservationId]
    {
      if reservationId in reservations then Some(reservations[reservationId]) else None
    }

    /**
     * `create`: the checks run in order (dates, unused id, known customer,
     * a room at the hotel) and the first that fails ends the call with
     * neither store changed. Otherwise the hotel takes a room and the new
     * reservation is stored, live, under its id.
     */
    method Create(reservationId: string, customerId: string, hotelId: string, checkIn: string, checkOut: string,
                  hotelStore: HotelStore, customerStore: CustomerStore)
      returns (outcome: CreateOutcome)
      modifies this, hotelStore
      ensures ValidateDates(checkIn, checkOut).None? ==> outcome == InvalidDates
      ensures ValidateDates(checkIn, checkOut).Some? && reservationId in old(reservations) ==>
        outcome == DuplicateId
      ensures (ValidateDates(checkIn, checkOut).Some? && reservationId !in old(reservations) &&
               customerId !in customerStore.customers) ==>
        outcome == UnknownCustomer
      ensures (ValidateDates(checkIn, checkOut).Some? && reservationId !in old(reservations) &&
               customerId in customerStore.customers &&
               !(hotelId in old(hotelStore.hotels) && old(hotelStore.hotels)[hotelId].availableRooms > 0)) ==>
        outcome == NoRoom
      ensures outcome.Created? <==>
        && ValidateDates(checkIn, checkOut).Some? && reservationId !in old(reservations)
        && customerId in customerStore.customers
        && hotelId in old(hotelStore.hotels) && old(hotelStore.hotels)[hotelId].availableRooms > 0
      ensures !outcome.Created? ==> reservations == old(reservations) && hotelStore.hotels == old(hotelStore.hotels)
      ensures outcome.Created? ==>
        && outcome.reservation == NewReservation(Str(reservationId), Str(customerId), Str(hotelId), Str(checkIn), Str(checkOut))
        && reservations == old(reservations)[reservationId := outcome.reservation]
        && hotelStore.hotels == old(hotelStore.hotels)[hotelId := Reserve(old(hotelStore.hotels)[hotelId], reservationId).value]
      ensures Linked(old(hotelStore.hotels), old(reservations)) ==> Linked(hotelStore.hotels, reservations)
    {
      var dates := ValidateDates(checkIn, checkOut);
      if dates.None? {
        return InvalidDates;
      }
      if reservationId in reservations {
        return DuplicateId;
      }
      if customerStore.Get(customerId).None? {
        return UnknownCustomer;
      }
      ghost var hotelsBefore := hotelStore.hotels;
      var reserved := hotelStore.ReserveRoom(hotelId, reservationId);
      if !reserved {
        return NoRoom;
      }
      var res := NewReservation(Str(reservationId), Str(customerId), Str(hotelId), Str(checkIn), Str(checkOut));
      reservations := reservations[reservationId := res];
      outcome := Created(res);
      if Linked(hotelsBefore, old(reservations)) {
        CreateKeepsLinked(hotelsBefore, old(reservations), res);
      }
    }

    /**
     * `cancel`: False, with nothing changed, for an unknown id or one already
     * cancelled. Otherwise the hotel is asked to give the room back, and the
     * reservation is marked cancelled whether or not the hotel agreed.
     */
    method Cancel(reservationId: string, hotelStore: HotelStore) returns (ok: bool)
      modifies this, hotelStore
      ensures ok == (reservationId in old(reservations) && !IsCancelled(old(reservations)[reservationId]))
      ensures !ok ==> reservations == old(reservations) && hotelStore.hotels == old(hotelStore.hotels)
      ensures ok ==>
        reservations == old(reservations)[reservationId := old(reservations)[reservationId].(status := CancelledStatus)]
      ensures ok ==>
        var hotelId := old(reservations)[reservationId].hotelId;
        hotelStore.hotels ==
          if hotelId in old(hotelStore.hotels) && Release(old(hotelStore.hotels)[hotelId], reservationId).Some?
          then old(hotelStore.hotels)[hotelId := Release(old(hotelStore.hotels)[hotelId], reservationId).value]
          else old(hotelStore.hotels)
      ensures Linked(old(hotelStore.hotels), old(reservations)) ==> Linked(hotelStore.hotels, reservations)
    {
      if reservationId !in reservations {
        return false;
      }
      var res := reservations[reservationId];
      if res.status == CancelledStatus {
        return false;
      }
      ghost var hotelsBefore := hotelStore.hotels;
      var _ := hotelStore.CancelReservation(res.hotelId, reservationId);
      reservations := reservations[reservationId := res.(status := CancelledStatus)];
      ok := true;
      if Linked(hotelsBefore, old(reservations)) {
        CancelKeepsLinked(hotelsBefore, old(reservations), reservationId);
      }
    }
  }
}
