# hotel_system in Dafny

A model of the record stores of `hotel_system`:
- hotels (`Hotel`), customers (`Customer`) and reservations (`Reservation`);
- the hotel's inventory ledger;
- the reservation lifecycle that couples a reservation to a room.

Each store keeps a keyed collection. Every operation loads the whole collection; one that changes the store changes it in memory and writes all of it back, while lookups and refused calls return before anything is written. The model turns that collection into a `map` field of a class (`HotelStore`, `CustomerStore`, `ReservationStore`), so each operation becomes a method that reassigns the map. `save_all` is taken to succeed, which makes persisting the same as assigning.

What the records go through on the way in and out is modelled as values:
- JSON values (`Json.Value`);
- Python's `str`, `float`, `int` and `list` coercions;
- `to_dict` / `from_dict`;
- the record-filter loop of `load_all`.

Modules, one per file:

| file | module | what it holds |
|---|---|---|
| `wrappers.dfy` | `Wrappers` | `Option` |
| `json.dfy` | `Json` | JSON values; the coercions `str` (`AsText`), `float` (`AsFloat`), `int` (`AsInt`), `list` (`AsList`) |
| `records.dfy` | `RecordStore` | what the three stores share: the file states, the `load_all` filter loop, `save_all`, `data.get`, and the `setattr` loop of `modify` |
| `customer.dfy` | `Customers` | the customer record and `CustomerStore` |
| `hotel.dfy` | `Hotels` | the hotel record, the inventory ledger (`Reserve`, `Release`) and `HotelStore` |
| `dates.dfy` | `Dates` | `strptime(s, '%Y-%m-%d')` and `validate_dates` |
| `reservation.dfy` | `Reservations` | the reservation record, the agreement `Linked` between hotel ledgers and reservations, and `ReservationStore` with `create` and `cancel` |
| `scenarios.dfy` | `Scenarios` | the behaviour the repository's tests exercise, derived from the contracts above |

The model follows a few choices:

- **`modify`.** `modify` stores each allow-listed keyword value as given, through `setattr` without coercion. The next `load_all` passes it through `from_dict`. The model therefore describes a modified record as the next load reads it:
  - `RecordStore.Edited` applies the `setattr` loop to the record's `to_dict` map;
  - `FromDict` then decodes that map.

  A hotel whose new `rating` or `total_rooms` does not coerce cannot be read back. It drops out of the collection, as the next `load_all` would drop it.
- **Cross-store agreement.** `Reservations.Linked` states when the hotel ledgers and the reservations agree:
  - every ledger satisfies `available_rooms + len(reservations) == total_rooms`;
  - every ledger lists distinct ids, each a live reservation at that hotel;
  - every live reservation is listed by its hotel.

  `create` and `cancel` preserve it. Under it, each hotel's free rooms plus its live reservations equal its size (`LinkedRoomCount`).

The model follows the code in these places, where it is looser than the `YYYY-MM-DD` dates, two-valued status, fixed room count and duplicate-free ledger the data suggests:
- **Date format.** `validate_dates` reads dates with `strptime` and `%Y-%m-%d`. That also accepts single-digit months and days (`2025-1-5`; `Scenarios.SingleDigitFields`), and a day written with a leading space.
- **Status.** `from_dict` keeps whatever `status` value is stored. Only the text `cancelled` counts as cancelled.
- **Room count.** `modify` may change `total_rooms`, and nothing adjusts `available_rooms` to match.
- **Ledger duplicates.** The ledger is a list, and `reserve_room` appends without checking.
- **Corrupt files.** `load_all` catches only JSON decoding and OS errors. A file whose JSON document is not an object makes `raw.items()` raise AttributeError, which nothing catches. `RecordStore.Loaded` gives None for that case. A file that is not valid UTF-8 makes reading raise UnicodeDecodeError, which is not caught either; the model has no such file.

## Model

| member | source | states |
|---|---|---|
| Json.AsText | hotel_system/customer.py:16-19 | `str(v)` keeps a string as it is; every text attribute passes through it |
| Json.AsFloat | hotel_system/hotel.py:19 | `float(v)` converts ints and floats exactly and refuses None, lists and dicts (TypeError) |
| Json.AsInt | hotel_system/hotel.py:20-21 | `int(v)` keeps ints, truncates floats toward zero, and refuses None, lists and dicts |
| Json.Truncate | hotel_system/hotel.py:20 | truncation toward zero: the result is within one of the float, on the side of zero |
| Json.AsList | hotel_system/hotel.py:50 | `list(v)` copies a list, splits a string into its one-character strings, and refuses scalars |
| Json.IntTextRoundTrip | hotel_system/hotel.py:20 | the simplified `int()` grammar reads back the canonical integer text `str()` writes, for every integer |
| RecordStore.GetOr | hotel_system/reservation.py:52 | `data.get(key, default)`: the stored value when the key is present, the default otherwise |
| RecordStore.FilterRecords | hotel_system/hotel.py:64-69 | the filter loop keeps exactly the keys whose record decodes, each under its original key with its decoded value |
| RecordStore.LoadAll | hotel_system/hotel.py:56-75 | an absent file, one that raises OSError and one `json.load` rejects with JSONDecodeError load as the empty collection; a JSON object loads as its decodable records and nothing else |
| RecordStore.Encoded | hotel_system/hotel.py:84-85 | `save_all` writes every record, serialized, under its own key and no other key |
| RecordStore.SaveLoadRoundTrip | hotel_system/customer.py:44-78 | loading what `save_all` wrote gives the collection back, for any record type whose `from_dict` inverts its `to_dict` |
| RecordStore.LastValue | hotel_system/hotel.py:151-153 | the value that counts for a key is that of the last keyword argument naming it; there is none iff no argument names it |
| RecordStore.Edited | hotel_system/hotel.py:150-155 | after the `setattr` loop, an allow-listed key given a value holds its last given value; every other attribute is unchanged; keys outside the allow-list are ignored |
| RecordStore.ApplyKwargs | hotel_system/customer.py:132-137 | the `setattr` loop over the keyword arguments computes `Edited` |
| Customers.ToDict | hotel_system/customer.py:21-28 | exactly the four attribute keys, each holding its attribute's text |
| Customers.FromDict | hotel_system/customer.py:30-42 | a record decodes iff it is a dict holding all four required keys |
| Customers.DictRoundTrip | hotel_system/customer.py:21-42 | `from_dict(to_dict(c))` reproduces `c` field for field |
| Customers.SaveLoadRoundTrip | hotel_system/customer.py:44-78 | saving the customer collection and loading it again gives it back unchanged |
| Customers.Modified | hotel_system/customer.py:124-140 | `customer_id` never changes; name, email and phone become `str` of the last keyword argument naming them, or stay as they were |
| Customers.CustomerStore.constructor | hotel_system/customer.py:44-57 | the store starts from the collection `load_all` returned |
| Customers.CustomerStore.Create | hotel_system/customer.py:80-91 | an id already present: None and nothing changes; otherwise the collection gains exactly that key, holding the new customer |
| Customers.CustomerStore.Delete | hotel_system/customer.py:93-104 | False iff the id is absent; only that key is removed, and `get` then finds nothing |
| Customers.CustomerStore.Get | hotel_system/customer.py:106-109 | the stored record iff the key is present, else None |
| Customers.CustomerStore.Modify | hotel_system/customer.py:124-140 | a keyword argument named `cls` or `customer_id` is refused (Python's TypeError at argument binding) with nothing changed; otherwise False with nothing changed for an unknown id; otherwise only that customer changes, as `Modified` says |
| Hotels.NewHotel | hotel_system/hotel.py:14-22 | a hotel is built iff `rating` converts to float and `total_rooms` to int; it starts with every room free and an empty ledger |
| Hotels.ToDict | hotel_system/hotel.py:24-34 | exactly the seven attribute keys, each holding its attribute: the texts as strings, `rating` as a float, both room counts as ints, the ledger as a list |
| Hotels.FromDict | hotel_system/hotel.py:36-54 | decodes iff the record is a dict with the five required keys and every coercion succeeds; `available_rooms` defaults to `total_rooms` and `reservations` to the empty list |
| Hotels.DictRoundTrip | hotel_system/hotel.py:24-54 | `from_dict(to_dict(h))` reproduces `h` field for field |
| Hotels.SaveLoadRoundTrip | hotel_system/hotel.py:56-90 | saving the hotel collection and loading it again gives it back unchanged |
| Hotels.Modified | hotel_system/hotel.py:142-158 | a modified hotel reads back iff any new rating and room count coerce; `hotel_id`, `available_rooms` and `reservations` never change; name, location, rating and size take the last given value or stay |
| Hotels.RemoveFirst | hotel_system/hotel.py:190 | `list.remove(x)` takes out exactly one occurrence of `x`: one element fewer, same multiset minus `x` |
| Hotels.Reserve | hotel_system/hotel.py:167-172 | refused iff no room is free; otherwise exactly one room fewer, never below 0, the id appended, and no other field changed |
| Hotels.Release | hotel_system/hotel.py:183-193 | refused iff the ledger lacks the id; otherwise one occurrence removed, one room back but never above `total_rooms`, and no other field changed |
| Hotels.NewHotelConsistent | hotel_system/hotel.py:14-22 | a new hotel satisfies `available_rooms + len(reservations) == total_rooms`, and the bounds when its size is not negative |
| Hotels.ReservePreserves | hotel_system/hotel.py:171-172 | taking a room preserves the ledger equation and `0 <= available_rooms <= total_rooms` |
| Hotels.ReleasePreserves | hotel_system/hotel.py:190-193 | giving a room back preserves the ledger equation and the bounds; under the equation the clamp never fires |
| Hotels.ReserveThenRelease | hotel_system/hotel.py:160-195 | for a hotel with a free room and no more free rooms than its size, reserving and then cancelling restores the free-room count and the ledger's contents, and the whole hotel when the id was new |
| Hotels.ReserveThenReleaseClamps | hotel_system/hotel.py:190-193 | for a hotel with more free rooms than its size, reserving and then cancelling leaves exactly its size free: the clamp drops the surplus |
| Hotels.HotelStore.constructor | hotel_system/hotel.py:56-69 | the store starts from the collection `load_all` returned |
| Hotels.HotelStore.Create | hotel_system/hotel.py:92-107 | an id already present or values that do not coerce: None and nothing changes; otherwise exactly that key is added, holding a hotel with every room free |
| Hotels.HotelStore.Delete | hotel_system/hotel.py:109-120 | False iff the id is absent; only that key is removed |
| Hotels.HotelStore.Get | hotel_system/hotel.py:122-125 | the stored record iff the key is present, else None |
| Hotels.HotelStore.Modify | hotel_system/hotel.py:142-158 | a keyword argument named `cls` or `hotel_id` is refused (Python's TypeError at argument binding) with nothing changed; otherwise False with nothing changed for an unknown id; otherwise only that hotel changes, as `Modified` says, and it drops out when it no longer reads back |
| Hotels.HotelStore.ReserveRoom | hotel_system/hotel.py:160-174 | fails with nothing changed iff the hotel is unknown or has no free room; otherwise only that hotel changes, as `Reserve` says |
| Hotels.HotelStore.CancelReservation | hotel_system/hotel.py:176-195 | fails with nothing changed iff the hotel is unknown or its ledger lacks the id; otherwise only that hotel changes, as `Release` says |
| Dates.DaysInMonth | hotel_system/reservation.py:101 | every month has 28 to 31 days |
| Dates.MatchMonth | hotel_system/reservation.py:101 | the `%m` group reads a month from 1 to 12 in one or two characters |
| Dates.MatchDay | hotel_system/reservation.py:101 | the `%d` group reads a day from 1 to 31 in one or two characters |
| Dates.ParseDate | hotel_system/reservation.py:100-105 | every date `strptime` accepts is a real calendar day in years 1 to 9999 |
| Dates.ValidateDates | hotel_system/reservation.py:94-109 | succeeds iff both strings parse and check-out is strictly after check-in, and then returns both dates |
| Dates.SameDayRejected | hotel_system/reservation.py:106-108 | a same-day stay is refused, whatever the string |
| Dates.SwappedRejected | hotel_system/reservation.py:106-108 | swapping an accepted pair of dates always makes it refused |
| Dates.PaddedValue | hotel_system/reservation.py:101 | a zero-padded numeral reads back as its number |
| Dates.ParseIsoText | hotel_system/reservation.py:101 | every valid date written `YYYY-MM-DD` parses back to itself |
| Reservations.NewReservation | hotel_system/reservation.py:19-28 | a new reservation is `active`, and its ids and dates are `str` of the arguments it was given |
| Reservations.ToDict | hotel_system/reservation.py:30-39 | exactly the six attribute keys, the ids and dates as strings and `status` as stored |
| Reservations.FromDict | hotel_system/reservation.py:41-56 | decodes iff the record is a dict with the five required keys; `status` is kept as stored and defaults to `active` |
| Reservations.DictRoundTrip | hotel_system/reservation.py:30-56 | `from_dict(to_dict(r))` reproduces `r` field for field |
| Reservations.SaveLoadRoundTrip | hotel_system/reservation.py:58-92 | saving the reservation collection and loading it again gives it back unchanged |
| Reservations.Ids | hotel_system/hotel.py:184 | the ids a ledger holds are exactly its string entries |
| Reservations.DistinctIdsCount | hotel_system/hotel.py:172 | a ledger of distinct string ids holds as many ids as entries |
| Reservations.LinkedRoomCount | hotel_system/reservation.py:129-157 | where the stores agree, a hotel's free rooms plus its live reservations equal its size |
| Reservations.RemoveFirstDistinct | hotel_system/hotel.py:190 | removing an id from a ledger of distinct ids leaves distinct ids: all the others and not that one |
| Reservations.CreateKeepsLinked | hotel_system/reservation.py:129-138 | storing a new live reservation after its hotel took the room keeps the stores in agreement |
| Reservations.CancelKeepsLinked | hotel_system/reservation.py:153-157 | under agreement, cancelling a live reservation always finds its id in its hotel's ledger, and the stores still agree afterwards |
| Reservations.NewHotelKeepsLinked | hotel_system/hotel.py:104-105 | adding a new hotel with every room free keeps the stores in agreement |
| Reservations.ReservationStore.constructor | hotel_system/reservation.py:58-71 | the store starts from the collection `load_all` returned |
| Reservations.ReservationStore.Get | hotel_system/reservation.py:159-162 | the stored record iff the key is present, else None |
| Reservations.ReservationStore.Create | hotel_system/reservation.py:111-138 | the checks run in order: dates, unused id, known customer, free room. The first failure is the outcome, and neither store changes. Success comes iff all four pass; the hotel then takes the room and the new `active` reservation is stored under its id. Agreement is preserved |
| Reservations.ReservationStore.Cancel | hotel_system/reservation.py:140-157 | succeeds iff the id is present and not yet cancelled. Its status then becomes `cancelled` whether or not the hotel can release the room; the hotel releases it when it can and is otherwise unchanged. Agreement is preserved |
| Scenarios.ValidStay | tests/test_reservation.py:132-138 | a five-night January stay is accepted |
| Scenarios.InvertedStays | tests/test_reservation.py:117-130 | same-day and inverted stays are refused |
| Scenarios.MalformedDates | tests/test_reservation.py:109-115 | `10-01-2025` (these lines) and `bad-date` (tests/test_reservation.py:162-167) do not parse |
| Scenarios.SingleDigitFields | hotel_system/reservation.py:101 | `2025-1-5` parses as 5 January 2025 |
| Scenarios.LeapDay | hotel_system/reservation.py:101 | 29 February 2024 parses |
| Scenarios.NoLeapDay | hotel_system/reservation.py:101 | 29 February 2025 does not |
| Scenarios.ShrunkHotelLosesRooms | hotel_system/hotel.py:142-193 | a three-room hotel shrunk to one room by `modify` keeps three free rooms, and a booking then a cancellation leaves it one |
| Scenarios.OneRoomHotel | tests/test_reservation.py:185 | a one-room hotel has its only room free and an empty ledger |
| Scenarios.BookedHotel | tests/test_reservation.py:183-186 | after one reservation, the one-room hotel has no free room and lists that reservation |
| Scenarios.FullHotelRefuses | tests/test_reservation.py:183-193 | a second reservation at the full hotel is refused, and the hotel stays full |
| Scenarios.CancelFreesRoom | tests/test_reservation.py:195-215 | cancelling frees the room, and a second cancellation of the same reservation is refused |
| Scenarios.RebookAfterCancel | hotel_system/reservation.py:111-156 | the room a cancellation frees goes to the next reservation (derived from the contracts of `create` and `cancel`; tests/test_reservation.py checks only the freed room) |
| Scenarios.UnknownCustomerLeavesInventory | hotel_system/reservation.py:123-129 | a reservation for an unknown customer is refused, and the hotel keeps all its rooms, since the customer is looked up before a room is taken |

## Left out

- `RecordStore.Stored` has no case for a file that is not valid UTF-8. Python's `load_all` then raises UnicodeDecodeError, which it does not catch.
- File I/O is not modelled. That covers `os.path.exists`, `open`, `json.load`/`json.dump` and `os.makedirs`. The file is a `RecordStore.Stored` value, and each store holds the collection `load_all` returned.
- A failing `save_all` is not modelled: every save is taken to succeed. The model therefore does not show a hotel ledger and the reservations drifting apart after a half-finished `create` or `cancel`.
- `print` diagnostics, the `display` methods and the menu in `main.py` are not modelled; they only write to the console.
- The class-level `DATA_FILE` paths are not modelled.
- Unicode digits are not modelled in `int()`, `float()` or `strptime`, and neither is the surrounding whitespace that `int()` and `float()` skip. The model reads only ASCII digits.
- `Json.AsFloat`, `Json.AsInt`: the grammar of numeric strings is simplified to sign, digits and optional fraction. Exponents, `inf`/`nan`, underscores and surrounding whitespace are not accepted.
- `Json.AsText`: `str()` of a float, a list or a dict gives a fixed marker text instead of Python's repr.
- `Json.AsList`: `list()` of a dict, which gives its keys in insertion order, is refused. A map does not keep key order.
- A hotel's `rating` is an exact real. Binary floating-point rounding is not modelled.
- `modify`'s keyword arguments are a sequence, so the model also admits a repeated key, for which the last one wins. Python's `**kwargs` holds each key once, so only sequences without repeated keys have a Python counterpart.
- `Hotels.HotelStore.Delete` does not touch reservations that still name the deleted hotel. The stores then stop agreeing (`Reservations.Linked`); the code does nothing about it, and no lemma claims otherwise.
- `Hotels.HotelStore.ReserveRoom` and `Hotels.HotelStore.CancelReservation`, when called on their own rather than from a reservation, can break `Reservations.Linked`. Only `Reservations.ReservationStore.Create` and `Cancel` promise to keep it.
- `Hotels.HotelStore.Modify` may set `total_rooms` without adjusting `available_rooms`. It keeps neither the ledger equation nor the bounds, and no contract claims it does. After a `modify` that shrinks a hotel below its free rooms, a reservation followed by its cancellation drops `available_rooms` to `total_rooms` (`Hotels.ReserveThenReleaseClamps`, `Scenarios.ShrunkHotelLosesRooms`).
- Non-string arguments to the `create` methods are not modelled. A Python caller may pass any object as an id, a name, a location, an e-mail or a phone, and the constructors pass it through `str()`. The stores take string ids, which is how they are keyed in the file, and `Customers.CustomerStore.Create` and `Hotels.HotelStore.Create` take the other text fields as strings.
- `Reservations.ReservationStore.Create` takes its dates as strings. In Python, a non-string date makes `strptime` raise TypeError, which `validate_dates` does not catch, so `create` crashes.
- `Json.AsFloat`, `Json.AsInt`: OverflowError is not modelled. `float()` of an integer beyond the float range raises it, and so does `int()` of an infinite float. Neither `from_dict` nor `Hotel.create` catches it, so in Python `load_all` or `create` crashes, while in the model the integer converts exactly. JSON's `Infinity`, `-Infinity` and `NaN` have no `Json.Value` at all.
