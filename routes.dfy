/**
 * The HTTP handlers of the booking service, as methods over an explicitly passed store.
 * Each returns the status code it would send and the record it would send with it.
 * Every handler keeps `Consistent`: the store's own invariant plus "no two reservations
 * occupy the same (facility, date, time) slot". A fresh store satisfies it, so it holds
 * after any sequence of requests.
 */
module Routes {
  import opened Wrappers
  import opened Schema
  import opened Pricing
  import opened Slots
  import opened Storage

  ghost predicate Consistent(store: Store)
    reads store
  {
    store.Valid() && NoDoubleBooking(store.reservations)
  }

  lemma FreshStoreIsConsistent(store: Store)
    requires store.Valid() && store.reservations == []
    ensures Consistent(store)
  {
  }

  /** The statuses PATCH accepts. */
  predicate KnownStatus(s: string) {
    s == "pending" || s == "confirmed" || s == "cancelled"
  }

  /** The slot a validated request asks for. */
  function RequestedSlot(v: ReservationInput): SlotKey {
    SlotKey(v.facilityId, v.date, v.time)
  }

  /** Some reservation in `rs` already holds `key`. */
  predicate SlotTaken(rs: seq<Reservation>, key: SlotKey) {
    exists r :: r in rs && KeyOf(r) == key
  }

  /**
   * The route's check (`some` over the reservations of the requested facility and date,
   * comparing times) finds a conflict exactly when some stored reservation holds the
   * requested slot.
   */
  lemma ConflictCheckIsExact(rows: seq<Reservation>, sameDay: seq<Reservation>, key: SlotKey)
    requires forall r :: r in sameDay <==> r in rows && r.facilityId == key.facilityId && r.date == key.date
    ensures TimeTaken(sameDay, key.time) <==> SlotTaken(rows, key)
  {
    if TimeTaken(sameDay, key.time) {
      var i :| 0 <= i < |sameDay| && sameDay[i].time == key.time;
      assert sameDay[i] in sameDay;
    }
    if SlotTaken(rows, key) {
      var r :| r in rows && KeyOf(r) == key;
      assert r in sameDay;
      var i :| 0 <= i < |sameDay| && sameDay[i] == r;
    }
  }

  /** Appending a reservation whose slot is free keeps the double-booking invariant. */
  lemma AddingFreeSlotKeepsNoDoubleBooking(rows: seq<Reservation>, r: Reservation)
    requires NoDoubleBooking(rows)
    requires !SlotTaken(rows, KeyOf(r))
    ensures NoDoubleBooking(rows + [r])
  {
    var all := rows + [r];
    forall i, j | 0 <= i < |all| && 0 <= j < |all| && i != j ensures KeyOf(all[i]) != KeyOf(all[j]) {
      if i < |rows| && j < |rows| {
        assert all[i] == rows[i] && all[j] == rows[j];
      } else if i < |rows| {
        assert all[i] in rows;
      } else {
        assert all[j] in rows;
      }
    }
  }

  /** The validated data with the server's price in place of the client's `totalCost`. */
  function Priced(v: ReservationInput, totalCostCents: int): InsertReservation {
    InsertReservation(v.facilityId, v.customerName, v.customerEmail, v.customerPhone,
      v.date, v.time, v.duration, v.partySize, v.pricingTier, totalCostCents, v.status)
  }

  /** GET /api/facilities */
  method ListFacilities(store: Store) returns (status: int, facilities: seq<Facility>)
    ensures status == 200 && facilities == store.facilities
  {
    status, facilities := 200, store.facilities;
  }

  /** GET /api/reservations */
  method ListReservations(store: Store) returns (status: int, reservations: seq<Reservation>)
    ensures status == 200 && reservations == store.reservations
  {
    status, reservations := 200, store.reservations;
  }

  /**
   * GET /api/availability/:facilityId/:date: the thirteen slots 10:00 to 22:00 in order,
   * a slot unavailable exactly when a stored reservation holds that facility, date and
   * time string. Reads only.
   */
  method Availability(store: Store, facilityId: string, date: string) returns (status: int, slots: seq<Slot>)
    ensures status == 200 && |slots| == SlotCount
    ensures forall i :: 0 <= i < |slots| ==>
      slots[i].time == TimeString(FirstHour + i) && slots[i].displayTime == DisplayTime(FirstHour + i)
    ensures forall i :: 0 <= i < |slots| ==>
      (!slots[i].available <==> SlotTaken(store.reservations, SlotKey(facilityId, date, slots[i].time)))
  {
    var reservations := store.ReservationsByFacilityAndDate(facilityId, date);
    slots := Calendar(reservations);
    status := 200;
  }

  /**
   * POST /api/reservations. In order: validate (400), check the requested slot against the
   * reservations of that facility and date (409), look the facility up (404), price the
   * booking from the facility's rate, and insert (201). Nothing is written unless the
   * answer is 201, and then exactly one row is added.
   */
  method CreateReservation(store: Store, body: ReservationBody, today: Day, now: int)
    returns (status: int, created: Option<Reservation>)
    requires Consistent(store)
    modifies store
    ensures Consistent(store)
    ensures status == 201 || status == 400 || status == 404 || status == 409
    ensures status == 400 <==> ParseReservation(body, today).Failure?
    ensures status == 409 <==> (ParseReservation(body, today).Success?
      && SlotTaken(old(store.reservations), RequestedSlot(ParseReservation(body, today).value)))
    ensures status == 404 <==> (ParseReservation(body, today).Success?
      && !SlotTaken(old(store.reservations), RequestedSlot(ParseReservation(body, today).value))
      && old(store.GetFacility(ParseReservation(body, today).value.facilityId)).None?)
    ensures status != 201 ==> created.None? && unchanged(store)
    ensures status == 201 ==> (created.Some?
      && store.reservations == old(store.reservations) + [created.value]
      && store.facilities == old(store.facilities) && store.contactMessages == old(store.contactMessages))
    ensures status == 201 ==>
      var v := ParseReservation(body, today).value;
      var facility := old(store.GetFacility(v.facilityId)).value;
      created.value == ReservationRow(created.value.id,
        Priced(v, TotalCostCents(facility.hourlyRateCents, v.pricingTier, v.duration)), now)
  {
    var parsed := ParseReservation(body, today);
    if parsed.Failure? {
      return 400, None;
    }
    var v := parsed.value;

    var existing := store.ReservationsByFacilityAndDate(v.facilityId, v.date);
    var isTaken := TimeTaken(existing, v.time);
    ConflictCheckIsExact(store.reservations, existing, RequestedSlot(v));
    if isTaken {
      return 409, None;
    }

    var facility := store.GetFacility(v.facilityId);
    if facility.None? {
      return 404, None;
    }

    var totalCost := TotalCostCents(facility.value.hourlyRateCents, v.pricingTier, v.duration);
    ghost var before := store.reservations;
    var reservation := store.CreateReservation(Priced(v, totalCost), now);
    AddingFreeSlotKeepsNoDoubleBooking(before, reservation);
    return 201, Some(reservation);
  }

  /**
   * PATCH /api/reservations/:id with body {status}. An absent or unknown status is 400 and
   * an unknown id 404, both without writing; otherwise only that reservation's status
   * changes (200).
   */
  method PatchReservation(store: Store, id: string, status: Option<string>)
    returns (code: int, updated: Option<Reservation>)
    requires Consistent(store)
    modifies store
    ensures Consistent(store)
    ensures code == 200 || code == 400 || code == 404
    ensures code == 400 <==> status.None? || !KnownStatus(status.value)
    ensures code == 404 <==> (status.Some? && KnownStatus(status.value)
      && forall i :: 0 <= i < |old(store.reservations)| ==> old(store.reservations)[i].id != id)
    ensures code != 200 ==> updated.None? && unchanged(store)
    ensures code == 200 ==> updated.Some? && updated.value.id == id && updated.value.status == status.value
    ensures code == 200 ==>
      exists i :: 0 <= i < |old(store.reservations)| && i < |store.reservations| &&
        old(store.reservations)[i].id == id &&
        updated.value == old(store.reservations)[i].(status := status.value) == store.reservations[i]
    ensures |store.reservations| == |old(store.reservations)|
    ensures forall i :: 0 <= i < |store.reservations| ==>
      store.reservations[i] == if code == 200 && old(store.reservations)[i].id == id
                               then old(store.reservations)[i].(status := status.value)
                               else old(store.reservations)[i]
    ensures store.facilities == old(store.facilities) && store.contactMessages == old(store.contactMessages)
  {
    if status.None? || !KnownStatus(status.value) {
      return 400, None;
    }
    ghost var before := store.reservations;
    var result := store.UpdateReservation(id, StatusPatch(status.value));
    forall i | 0 <= i < |before| ensures KeyOf(store.reservations[i]) == KeyOf(before[i]) {
      StatusPatchChangesOnlyStatus(before[i], status.value);
    }
    if result.None? {
      assert store.reservations == before;
      return 404, None;
    }
    forall i | 0 <= i < |before| && before[i].id == id
      ensures store.reservations[i] == before[i].(status := status.value) {
      StatusPatchChangesOnlyStatus(before[i], status.value);
    }
    ghost var i :| 0 <= i < |before| && before[i].id == id && result.value == Merge(before[i], StatusPatch(status.value));
    StatusPatchChangesOnlyStatus(before[i], status.value);
    return 200, result;
  }

  /** DELETE /api/reservations/:id: 404 for an unknown id; otherwise 204 and the row is gone. */
  method DeleteReservation(store: Store, id: string) returns (code: int)
    requires Consistent(store)
    modifies store
    ensures Consistent(store)
    ensures code == 204 || code == 404
    ensures code == 404 <==> forall i :: 0 <= i < |old(store.reservations)| ==> old(store.reservations)[i].id != id
    ensures forall r :: r in store.reservations <==> r in old(store.reservations) && r.id != id
    ensures store.facilities == old(store.facilities) && store.contactMessages == old(store.contactMessages)
  {
    var deleted := store.DeleteReservation(id);
    if !deleted {
      return 404;
    }
    return 204;
  }

  /** POST /api/contact: validate (400, nothing written), then store the message (201). */
  method SubmitContact(store: Store, body: ContactBody, now: int) returns (code: int, message: Option<ContactMessage>)
    requires Consistent(store)
    modifies store
    ensures Consistent(store)
    ensures code == 201 || code == 400
    ensures code == 400 <==> ParseContact(body).Failure?
    ensures code == 400 ==> message.None? && unchanged(store)
    ensures code == 201 ==> (message.Some?
      && Some(message.value.name) == body.name && Some(message.value.email) == body.email
      && Some(message.value.message) == body.message && message.value.createdAt == now
      && store.contactMessages == old(store.contactMessages) + [message.value]
      && store.reservations == old(store.reservations) && store.facilities == old(store.facilities))
  {
    var parsed := ParseContact(body);
    if parsed.Failure? {
      return 400, None;
    }
    var created := store.CreateContactMessage(parsed.value, now);
    return 201, Some(created);
  }

  /** The booking request of the route tests, for a given facility. */
  function JohnDoeBody(facilityId: string): ReservationBody {
    ReservationBody(None, Some(facilityId), Some("John Doe"), Some("john@example.com"),
      Some("1234567890"), Some("2099-01-01"), Some("10:00"), Some(1), Some(2), Some("explorer"),
      Some("0.00"), None, None)
  }

  /** The route tests' booking request passes validation on any day up to its date. */
  lemma JohnDoeAccepted(facilityId: string, today: Day)
    requires !Before(Day(2099, 1, 1), today)
    ensures ParseReservation(JohnDoeBody(facilityId), today).Success?
  {
    var body := JohnDoeBody(facilityId);
    FourLetterAddress("john@example.com");
    assert ParseIsoDate("2099-01-01") == Some(Day(2099, 1, 1));
    forall f ensures !ReservationFieldRejected(body, today, f) {
    }
    ReservationAcceptedIffNoRuleBroken(body, today);
  }

  /** A valid request for a slot that is already booked is answered 409 and writes nothing. */
  method RequestSlotAgain(store: Store, body: ReservationBody, today: Day, now: int) returns (status: int)
    requires Consistent(store)
    requires ParseReservation(body, today).Success?
    requires SlotTaken(store.reservations, RequestedSlot(ParseReservation(body, today).value))
    modifies store
    ensures status == 409 && unchanged(store)
  {
    var created;
    status, created := CreateReservation(store, body, today, now);
  }

  /** A new store after seeding: no reservations yet, and the first facility bills 45.00 an hour. */
  method SeededStore() returns (store: Store, facilityId: string)
    ensures fresh(store) && Consistent(store) && store.reservations == []
    ensures store.GetFacility(facilityId).Some? && store.GetFacility(facilityId).value.hourlyRateCents == 4500
  {
    store := new Store();
    store.InitializeDefaultFacilities();
    FreshStoreIsConsistent(store);
    facilityId := store.facilities[0].id;
    assert store.GetFacility(facilityId) == Some(store.facilities[0]);
  }

  /**
   * The create-and-list and double-booking route tests (a reservation for the first
   * facility is created with 201 and listed alone; the same request again is 409), replayed
   * on one seeded store and extended with the explorer price of the new row, the single row
   * left after the conflict, and the deletion of an unknown id and of the booked id.
   */
  method BookingScenario(today: Day, now: int)
    requires !Before(Day(2099, 1, 1), today)
  {
    var store, facilityId := SeededStore();
    var body := JohnDoeBody(facilityId);
    JohnDoeAccepted(facilityId, today);
    var v := ParseReservation(body, today).value;
    assert RequestedSlot(v) == SlotKey(facilityId, "2099-01-01", "10:00");

    var status, created := CreateReservation(store, body, today, now);
    assert status == 201;
    var reservation := created.value;
    assert store.reservations == [reservation];
    PriceExamples();
    assert reservation.totalCostCents == 3600;
    assert KeyOf(reservation) == RequestedSlot(v);
    var reservationId := reservation.id;

    assert SlotTaken(store.reservations, RequestedSlot(v));
    var conflict := RequestSlotAgain(store, body, today, now);

    CancelBooking(store, reservationId);
  }

  /**
   * Deletion on a store holding one reservation: an id that is not there is 404 and
   * deletes nothing, the reservation's own id is 204 and empties the table.
   */
  method CancelBooking(store: Store, id: string)
    requires Consistent(store)
    requires |store.reservations| == 1 && store.reservations[0].id == id
    modifies store
  {
    IssuedIdIsNumeral(id, store.nextId);
    assert id[0] != "none"[0];
    assert forall i :: 0 <= i < |store.reservations| ==> store.reservations[i].id != "none";
    ghost var row := store.reservations[0];
    var missing := DeleteReservation(store, "none");
    assert missing == 404 && row in store.reservations;
    var gone := DeleteReservation(store, id);
    assert gone == 204 && row !in store.reservations;
  }

  /** The contact route tests: a complete message is stored (201), a bad one refused (400). */
  method ContactScenario(now: int) {
    var store := new Store();
    FreshStoreIsConsistent(store);
    ContactExamples();
    var accepted, message := SubmitContact(store,
      ContactBody(None, Some("Jane"), Some("jane@example.com"), Some("Hello from space!"), None), now);
    assert accepted == 201 && message.value.name == "Jane" && |store.contactMessages| == 1;
    var refused, _ := SubmitContact(store, ContactBody(None, Some(""), Some("invalid"), Some("short"), None), now);
    assert refused == 400 && |store.contactMessages| == 1;
  }
}
