/**
 * The hotel record, its inventory ledger and its store
 * (hotel_system/hotel.py).
 */
module Hotels {
  import opened Wrappers
  import opened Json
  import RecordStore

  /**
   * A hotel. `reservations` holds the ids occupying a room here, as the
   * stored list holds them (any JSON value may appear in a list read back
   * from the file; the ledger itself only ever appends strings).
   */
  datatype Hotel = Hotel(
    hotelId: string,
    name: string,
    location: string,
    rating: real,
    totalRooms: int,
    availableRooms: int,
    reservations: seq<Value>)

  /** The keys `from_dict` cannot do without. */
  const RequiredKeys: set<string> := {"hotel_id", "name", "location", "rating", "total_rooms"}

  /** The attributes `modify` may set. */
  const ModifiableKeys: set<string> := {"name", "location", "rating", "total_rooms"}

  /** The named parameters of `modify`, which no keyword argument may repeat. */
  const ModifyParameters: set<string> := {"cls", "hotel_id"}

  /**
   * `Hotel(hotel_id, name, location, rating, total_rooms)`: the text fields
   * pass through `str`, `rating` through `float`, `total_rooms` through
   * `int`; None where a coercion raises. A new hotel has every room free.
   */
  function NewHotel(hotelId: Value, name: Value, location: Value, rating: Value, totalRooms: Value)
    : (r: Option<Hotel>)
    ensures r.Some? <==> AsFloat(rating).Some? && AsInt(totalRooms).Some?
    ensures r.Some? ==>
      && r.value.hotelId == AsText(hotelId) && r.value.name == AsText(name)
      && r.value.location == AsText(location)
      && r.value.rating == AsFloat(rating).value && r.value.totalRooms == AsInt(totalRooms).value
      && r.value.availableRooms == r.value.totalRooms && r.value.reservations == []
  {
    match (AsFloat(rating), AsInt(totalRooms))
    case (Some(stars), Some(rooms)) =>
      Some(Hotel(AsText(hotelId), AsText(name), AsText(location), stars, rooms, rooms, []))
    case _ => None
  }

  /**
   * `to_dict`: one entry per attribute, under the attribute's own name; the
   * texts as strings, `rating` as a float, the room counts as ints and the
   * ledger as a list.
   */
  function ToDict(h: Hotel): (v: Value)
    ensures v.Object? && v.fields.Keys == RequiredKeys + {"available_rooms", "reservations"}
    ensures v.Object? ==>
      && v.fields["hotel_id"] == Str(h.hotelId) && v.fields["name"] == Str(h.name)
      && v.fields["location"] == Str(h.location) && v.fields["rating"] == Float(h.rating)
      && v.fields["total_rooms"] == Int(h.totalRooms) && v.fields["available_rooms"] == Int(h.availableRooms)
      && v.fields["reservations"] == Array(h.reservations)
  {
    Object(map[
      "hotel_id" := Str(h.hotelId),
      "name" := Str(h.name),
      "location" := Str(h.location),
      "rating" := Float(h.rating),
      "total_rooms" := Int(h.totalRooms),
      "available_rooms" := Int(h.availableRooms),
      "reservations" := Array(h.reservations)])
  }

  /**
   * `from_dict`: None when the record is not a dict, lacks a required key, or
   * a value fails its coercion; `available_rooms` defaults to `total_rooms`
   * and `reservations` to the empty list.
   */
  function FromDict(data: Value): (r: Option<Hotel>)
    ensures r.Some? <==>
      && data.Object? && RequiredKeys <= data.fields.Keys
      && AsFloat(data.fields["rating"]).Some? && AsInt(data.fields["total_rooms"]).Some?
      && ("available_rooms" in data.fields ==> AsInt(data.fields["available_rooms"]).Some?)
      && ("reservations" in data.fields ==> AsList(data.fields["reservations"]).Some?)
    ensures r.Some? && "available_rooms" !in data.fields ==> r.value.availableRooms == r.value.totalRooms
    ensures r.Some? && "reservations" !in data.fields ==> r.value.reservations == []
  {
    if data.Object? && RequiredKeys <= data.fields.Keys then
      var f := data.fields;
      match NewHotel(f["hotel_id"], f["name"], f["location"], f["rating"], f["total_rooms"])
      case None => None
      case Some(hotel) =>
        match (AsInt(RecordStore.GetOr(f, "available_rooms", Int(hotel.totalRooms))),
               AsList(RecordStore.GetOr(f, "reservations", Array([]))))
        case (Some(available), Some(ids)) =>
          Some(hotel.(availableRooms := available, reservations := ids))
        case _ => None
    else None
  }

  /** `from_dict` of a record that carries every attribute `to_dict` writes. */
  lemma FromFullDict(f: map<string, Value>)
    requires RequiredKeys + {"available_rooms", "reservations"} <= f.Keys
    requires f["available_rooms"].Int? && f["reservations"].Array?
    ensures FromDict(Object(f)) ==
      if AsFloat(f["rating"]).Some? && AsInt(f["total_rooms"]).Some? then
        Some(Hotel(AsText(f["hotel_id"]), AsText(f["name"]), AsText(f["location"]),
                   AsFloat(f["rating"]).value, AsInt(f["total_rooms"]).value,
                   f["available_rooms"].i, f["reservations"].items))
      else None
  {
  }

  /** `from_dict(to_dict(h))` reproduces `h` field for field. */
  lemma DictRoundTrip(h: Hotel)
    ensures FromDict(ToDict(h)) == Some(h)
  {
  }

  /** Saving a hotel collection and loading it again gives it back unchanged. */
  lemma SaveLoadRoundTrip(m: map<string, Hotel>)
    ensures RecordStore.Loaded(RecordStore.Saved(m, ToDict), FromDict) == Some(m)
  {
    forall h: Hotel ensures FromDict(ToDict(h)) == Some(h) {
      DictRoundTrip(h);
    }
    RecordStore.SaveLoadRoundTrip(m, ToDict, FromDict);
  }

  /** The attributes of `h` after `modify`'s `setattr` loop, key by key. */
  lemma EditedFields(h: Hotel, kwargs: seq<RecordStore.Kwarg>)
    ensures var f := RecordStore.Edited(ToDict(h).fields, kwargs, ModifiableKeys);
      && f.Keys == ToDict(h).fields.Keys
      && f["hotel_id"] == Str(h.hotelId)
      && f["available_rooms"] == Int(h.availableRooms)
      && f["reservations"] == Array(h.reservations)
      && f["name"] == RecordStore.Setting(kwargs, "name", Str(h.name))
      && f["location"] == RecordStore.Setting(kwargs, "location", Str(h.location))
      && f["rating"] == RecordStore.Setting(kwargs, "rating", Float(h.rating))
      && f["total_rooms"] == RecordStore.Setting(kwargs, "total_rooms", Int(h.totalRooms))
  {
    var d := ToDict(h).fields;
    assert d["hotel_id"] == Str(h.hotelId) && d["name"] == Str(h.name) && d["location"] == Str(h.location);
    assert d["rating"] == Float(h.rating) && d["total_rooms"] == Int(h.totalRooms);
    assert d["available_rooms"] == Int(h.availableRooms) && d["reservations"] == Array(h.reservations);
    assert "hotel_id" !in ModifiableKeys && "available_rooms" !in ModifiableKeys && "reservations" !in ModifiableKeys;
  }

  /**
   * The hotel as the next load reads it after `modify`: `setattr` stores each
   * allow-listed value as given and `from_dict` coerces it. A `rating` or
   * `total_rooms` its coercion refuses makes the whole record unreadable.
   */
  function Modified(h: Hotel, kwargs: seq<RecordStore.Kwarg>): (r: Option<Hotel>)
    ensures r.Some? <==>
      && (RecordStore.LastValue(kwargs, "rating").Some? ==>
            AsFloat(RecordStore.LastValue(kwargs, "rating").value).Some?)
      && (RecordStore.LastValue(kwargs, "total_rooms").Some? ==>
            AsInt(RecordStore.LastValue(kwargs, "total_rooms").value).Some?)
    ensures r.Some? ==>
      && r.value.hotelId == h.hotelId
      && r.value.availableRooms == h.availableRooms
      && r.value.reservations == h.reservations
      && r.value.name == RecordStore.TextSetting(kwargs, "name", h.name)
      && r.value.location == RecordStore.TextSetting(kwargs, "location", h.location)
      && r.value.rating == (match RecordStore.LastValue(kwargs, "rating")
                            case Some(v) => AsFloat(v).value
                            case None => h.rating)
      && r.value.totalRooms == (match RecordStore.LastValue(kwargs, "total_rooms")
                                case Some(v) => AsInt(v).value
                                case None => h.totalRooms)
  {
    var fields := RecordStore.Edited(ToDict(h).fields, kwargs, ModifiableKeys);
    EditedFields(h, kwargs);
    FromFullDict(fields);
    FromDict(Object(fields))
  }

  // ---------------------------------------------------------------------------
  // The inventory ledger
  // ---------------------------------------------------------------------------

  /** Every room is either free or held by one entry of the ledger. */
  predicate Consistent(h: Hotel)
  {
    h.availableRooms + |h.reservations| == h.totalRooms
  }

  /** The free-room count stays between 0 and the hotel's size. */
  predicate InBounds(h: Hotel)
  {
    0 <= h.availableRooms <= h.totalRooms
  }

  /** The position of the first occurrence of `x` in `s`. */
  function FirstIndex(s: seq<Value>, x: Value): (i: nat)
    requires x in s
    ensures i < |s| && s[i] == x
    ensures forall j :: 0 <= j < i ==> s[j] != x
  {
    if s[0] == x then 0 else 1 + FirstIndex(s[1..], x)
  }

  /** `list.remove(x)`: drops the first occurrence of `x` and nothing else. */
  function RemoveFirst(s: seq<Value>, x: Value): (r: seq<Value>)
    requires x in s
    ensures |r| == |s| - 1
    ensures multiset(r) == multiset(s) - multiset{x}
  {
    var i := FirstIndex(s, x);
    assert s == s[..i] + [x] + s[i + 1..];
    s[..i] + s[i + 1..]
  }

  /**
   * One room taken for `reservationId`: refused when no room is free;
   * otherwise one room fewer and the id appended to the ledger.
   */
  function Reserve(h: Hotel, reservationId: string): (r: Option<Hotel>)
    ensures r.Some? <==> h.availableRooms > 0
    ensures r.Some? ==>
      && r.value.availableRooms == h.availableRooms - 1 >= 0
      && r.value.reservations == h.reservations + [Str(reservationId)]
      && r.value.(availableRooms := h.availableRooms, reservations := h.reservations) == h
  {
    if h.availableRooms <= 0 then None
    else Some(h.(availableRooms := h.availableRooms - 1,
                 reservations := h.reservations + [Str(reservationId)]))
  }

  /**
   * The room of `reservationId` given back: refused when the ledger does not
   * hold the id; otherwise its first entry goes and one room comes back,
   * never more than the hotel has.
   */
  function Release(h: Hotel, reservationId: string): (r: Option<Hotel>)
    ensures r.Some? <==> Str(reservationId) in h.reservations
    ensures r.Some? ==>
      && r.value.availableRooms == (if h.availableRooms + 1 <= h.totalRooms
                                    then h.availableRooms + 1 else h.totalRooms)
      && r.value.availableRooms <= r.value.totalRooms
      && r.value.reservations == RemoveFirst(h.reservations, Str(reservationId))
      && r.value.(availableRooms := h.availableRooms, reservations := h.reservations) == h
  {
    if Str(reservationId) !in h.reservations then None
    else
      var available := h.availableRooms + 1;
      Some(h.(reservations := RemoveFirst(h.reservations, Str(reservationId)),
              availableRooms := if available <= h.totalRooms then available else h.totalRooms))
  }

  /** A new hotel satisfies the ledger equation and the bounds when its size is not negative. */
  lemma NewHotelConsistent(hotelId: Value, name: Value, location: Value, rating: Value, totalRooms: Value)
    requires NewHotel(hotelId, name, location, rating, totalRooms).Some?
    ensures Consistent(NewHotel(hotelId, name, location, rating, totalRooms).value)
    ensures AsInt(totalRooms).value >= 0 ==>
      InBounds(NewHotel(hotelId, name, location, rating, totalRooms).value)
  {
  }

  /** Taking a room keeps the ledger equation and the bounds. */
  lemma ReservePreserves(h: Hotel, reservationId: string)
    requires Reserve(h, reservationId).Some?
    ensures Consistent(h) ==> Consistent(Reserve(h, reservationId).value)
    ensures InBounds(h) ==> InBounds(Reserve(h, reservationId).value)
  {
  }

  /**
   * Giving a room back keeps the ledger equation and the bounds; under the
   * equation the clamp to `total_rooms` never fires.
   */
  lemma ReleasePreserves(h: Hotel, reservationId: string)
    requires Release(h, reservationId).Some?
    ensures Consistent(h) ==>
      Consistent(Release(h, reservationId).value) &&
      Release(h, reservationId).value.availableRooms == h.availableRooms + 1
    ensures InBounds(h) ==> InBounds(Release(h, reservationId).value)
  {
  }

  /**
   * Taking a room and giving it back restores the free-room count and the
   * ledger's contents; the ledger is the very same list when it did not
   * already hold the id.
   */
  lemma ReserveThenRelease(h: Hotel, reservationId: string)
    requires 0 < h.availableRooms <= h.totalRooms
    ensures Release(Reserve(h, reservationId).value, reservationId).Some?
    ensures Release(Reserve(h, reservationId).value, reservationId).value.availableRooms == h.availableRooms
    ensures multiset(Release(Reserve(h, reservationId).value, reservationId).value.reservations) ==
      multiset(h.reservations)
    ensures Str(reservationId) !in h.reservations ==>
      Release(Reserve(h, reservationId).value, reservationId).value == h
  {
    var s := h.reservations + [Str(reservationId)];
    assert s[..|h.reservations|] == h.reservations;
    if Str(reservationId) !in h.reservations {
      assert FirstIndex(s, Str(reservationId)) == |h.reservations|;
    }
  }

  /**
   * With more free rooms than its size, which `modify` can leave behind, a
   * hotel that takes a room and gives it back ends with only its size free:
   * the clamp in `cancel_reservation` drops the surplus.
   */
  lemma ReserveThenReleaseClamps(h: Hotel, reservationId: string)
    requires 0 <= h.totalRooms < h.availableRooms
    ensures Release(Reserve(h, reservationId).value, reservationId).Some?
    ensures Release(Reserve(h, reservationId).value, reservationId).value.availableRooms == h.totalRooms
  {
  }

  /** The hotel collection, as `load_all` hands it to each operation. */
  class HotelStore {
    var hotels: map<string, Hotel>

    constructor (loaded: map<string, Hotel>)
      ensures hotels == loaded
    {
      hotels := loaded;
    }

    /**
     * `create`: refuses an id already present and values the constructor
     * cannot coerce; otherwise adds exactly that key, every room free.
     */
    method Create(hotelId: string, name: string, location: string, rating: Value, totalRooms: Value)
      returns (r: Option<Hotel>)
      modifies this
      ensures hotelId in old(hotels) ==> r.None? && hotels == old(hotels)
      ensures hotelId !in old(hotels) ==> r == NewHotel(Str(hotelId), Str(name), Str(location), rating, totalRooms)
      ensures r.Some? ==> hotels == old(hotels)[hotelId := r.value] && Consistent(r.value)
      ensures r.None? ==> hotels == old(hotels)
    {
      if hotelId in hotels {
        return None;
      }
      r := NewHotel(Str(hotelId), Str(name), Str(location), rating, totalRooms);
      if r.Some? {
        hotels := hotels[hotelId := r.value];
      }
    }

    /** `delete`: False for an unknown id; otherwise removes only that key. */
    method Delete(hotelId: string) returns (ok: bool)
      modifies this
      ensures ok == (hotelId in old(hotels))
      ensures hotels == old(hotels) - {hotelId}
    {
      if hotelId !in hotels {
        return false;
      }
      hotels := hotels - {hotelId};
      ok := true;
    }

    /** `get`: the stored record, or None. */
    function Get(hotelId: string): (r: Option<Hotel>)
      reads this
      ensures r.Some? <==> hotelId in hotels
      ensures r.Some? ==> r.value == hotels[hotelId]
    {
      if hotelId in hotels then Some(hotels[hotelId]) else None
    }

    /**
     * `modify`: a keyword argument named like a parameter is refused by the
     * argument binding; otherwise False for an unknown id, or the allow-listed
     * attributes set from the keyword arguments in order, the others ignored,
     * and True. The record then reads back as `Modified` says, or not at all
     * when a new value fails its coercion.
     */
    method Modify(hotelId: string, kwargs: seq<RecordStore.Kwarg>) returns (outcome: RecordStore.ModifyOutcome)
      modifies this
      ensures outcome.Clash? <==> RecordStore.Clashes(kwargs, ModifyParameters)
      ensures outcome.NotFound? <==> !RecordStore.Clashes(kwargs, ModifyParameters) && hotelId !in old(hotels)
      ensures !outcome.Updated? ==> hotels == old(hotels)
      ensures outcome.Updated? ==> hotels == match Modified(old(hotels)[hotelId], kwargs)
                                           case Some(h) => old(hotels)[hotelId := h]
                                           case None => old(hotels) - {hotelId}
    {
      if RecordStore.Clashes(kwargs, ModifyParameters) {
        return RecordStore.Clash;
      }
      if hotelId !in hotels {
        return RecordStore.NotFound;
      }
      var original := hotels[hotelId];
      var attributes := RecordStore.ApplyKwargs(ToDict(original).fields, kwargs, ModifiableKeys);
      var reloaded := FromDict(Object(attributes));
      assert reloaded == Modified(original, kwargs);
      match reloaded {
        case Some(h) => hotels := hotels[hotelId := h];
        case None => hotels := hotels - {hotelId};
      }
      outcome := RecordStore.Updated;
    }

    /**
     * `reserve_room`: False, with nothing changed, for an unknown hotel or one
     * with no free room; otherwise that hotel takes the room and no other
     * hotel changes.
     */
    method ReserveRoom(hotelId: string, reservationId: string) returns (ok: bool)
      modifies this
      ensures ok == (hotelId in old(hotels) && old(hotels)[hotelId].availableRooms > 0)
      ensures !ok ==> hotels == old(hotels)
      ensures ok ==> hotels == old(hotels)[hotelId := Reserve(old(hotels)[hotelId], reservationId).value]
    {
      if hotelId !in hotels {
        return false;
      }
      var hotel := hotels[hotelId];
      if hotel.availableRooms <= 0 {
        return false;
      }
      hotel := hotel.(availableRooms := hotel.availableRooms - 1);
      hotel := hotel.(reservations := hotel.reservations + [Str(reservationId)]);
      hotels := hotels[hotelId := hotel];
      ok := true;
    }

    /**
     * `cancel_reservation`: False, with nothing changed, for an unknown hotel
     * or an id its ledger does not hold; otherwise that hotel gives the room
     * back and no other hotel changes.
     */
    method CancelReservation(hotelId: string, reservationId: string) returns (ok: bool)
      modifies this
      ensures ok == (hotelId in old(hotels) && Str(reservationId) in old(hotels)[hotelId].reservations)
      ensures !ok ==> hotels == old(hotels)
      ensures ok ==> hotels == old(hotels)[hotelId := Release(old(hotels)[hotelId], reservationId).value]
    {
      if hotelId !in hotels {
        return false;
      }
      var hotel := hotels[hotelId];
      if Str(reservationId) !in hotel.reservations {
        return false;
      }
      hotel := hotel.(reservations := RemoveFirst(hotel.reservations, Str(reservationId)));
      var available := hotel.availableRooms + 1;
      hotel := hotel.(availableRooms := if available <= hotel.totalRooms then available else hotel.totalRooms);
      hotels := hotels[hotelId := hotel];
      ok := true;
    }
  }
}
