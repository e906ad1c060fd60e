/**
 * The reservation, facility and contact-message tables behind the storage interface,
 * as an in-memory store: each table is a sequence of rows in insertion order, and
 * identifiers come from a counter (the database draws random UUIDs).
 */
module Storage {
  import opened Wrappers
  import opened Seqs
  import opened Text
  import opened Schema

  /** `id` was handed out before the counter reached `bound`; the `k`-th id is `NatToString(k)`. */
  ghost predicate Issued(id: string, bound: nat) {
    exists k :: 0 <= k < bound && NatToString(k) == id
  }

  /** Every issued id is a non-empty string of decimal digits. */
  lemma IssuedIdIsNumeral(id: string, bound: nat)
    requires Issued(id, bound)
    ensures |id| >= 1 && forall i :: 0 <= i < |id| ==> '0' <= id[i] <= '9'
  {
    var k :| 0 <= k < bound && NatToString(k) == id;
  }

  /** The identifier the counter hands out next was never handed out before. */
  lemma NextIdIsFresh(bound: nat)
    ensures !Issued(NatToString(bound), bound)
  {
    forall k | 0 <= k < bound ensures NatToString(k) != NatToString(bound) {
      if NatToString(k) == NatToString(bound) {
        NatToStringInjective(k, bound);
      }
    }
  }

  /** The fields a merge-update may set: every column but the primary key. */
  datatype ReservationPatch = ReservationPatch(
    facilityId: Option<string>, customerName: Option<string>, customerEmail: Option<string>,
    customerPhone: Option<string>, date: Option<string>, time: Option<string>,
    duration: Option<int>, partySize: Option<int>, pricingTier: Option<string>,
    totalCostCents: Option<int>, status: Option<string>, createdAt: Option<int>)

  /** A patch that sets `status` and nothing else. */
  function StatusPatch(status: string): ReservationPatch {
    ReservationPatch(None, None, None, None, None, None, None, None, None, None, Some(status), None)
  }

  /** `SET` of the supplied columns: each supplied field replaces the stored one. */
  function Merge(r: Reservation, p: ReservationPatch): Reservation {
    Reservation(
      r.id, p.facilityId.GetOr(r.facilityId),
      p.customerName.GetOr(r.customerName), p.customerEmail.GetOr(r.customerEmail),
      p.customerPhone.GetOr(r.customerPhone),
      p.date.GetOr(r.date), p.time.GetOr(r.time), p.duration.GetOr(r.duration),
      p.partySize.GetOr(r.partySize), p.pricingTier.GetOr(r.pricingTier),
      p.totalCostCents.GetOr(r.totalCostCents), p.status.GetOr(r.status),
      p.createdAt.GetOr(r.createdAt))
  }

  /** A status-only patch changes the status and nothing else, so the slot stays the same. */
  lemma StatusPatchChangesOnlyStatus(r: Reservation, status: string)
    ensures Merge(r, StatusPatch(status)) == r.(status := status)
    ensures KeyOf(Merge(r, StatusPatch(status))) == KeyOf(r)
  {
  }

  /** A patch that moves a reservation can create a double booking: merge-update does not re-check slots. */
  lemma MoveCanDoubleBook(a: Reservation, b: Reservation)
    requires a.id != b.id && KeyOf(a) != KeyOf(b)
    ensures NoDoubleBooking([a, b])
    ensures var p := ReservationPatch(Some(b.facilityId), None, None, None, Some(b.date), Some(b.time),
                                      None, None, None, None, None, None);
      !NoDoubleBooking([Merge(a, p), b])
  {
    var p := ReservationPatch(Some(b.facilityId), None, None, None, Some(b.date), Some(b.time),
                              None, None, None, None, None, None);
    var rs := [Merge(a, p), b];
    assert KeyOf(rs[0]) == KeyOf(rs[1]);
  }

  /** The rows a selection keeps all come from the table. */
  lemma WhereRowsAreTableRows(rows: seq<Reservation>, p: Reservation -> bool, x: Reservation)
    requires rows != [] && x in Where(rows[1..], p)
    ensures exists k :: 1 <= k < |rows| && rows[k] == x
  {
    var k :| 0 <= k < |rows[1..]| && rows[1..][k] == x;
    assert rows[k + 1] == x;
  }

  /** Deleting rows keeps the double-booking invariant. */
  lemma {:induction false} WhereKeepsNoDoubleBooking(rows: seq<Reservation>, p: Reservation -> bool)
    requires NoDoubleBooking(rows)
    ensures NoDoubleBooking(Where(rows, p))
  {
    if rows != [] {
      var rest := Where(rows[1..], p);
      assert NoDoubleBooking(rows[1..]) by {
        forall i, j | 0 <= i < |rows| - 1 && 0 <= j < |rows| - 1 && i != j
          ensures KeyOf(rows[1..][i]) != KeyOf(rows[1..][j]) {
          assert rows[1..][i] == rows[i + 1] && rows[1..][j] == rows[j + 1];
        }
      }
      WhereKeepsNoDoubleBooking(rows[1..], p);
      forall x | x in rest ensures KeyOf(x) != KeyOf(rows[0]) {
        WhereRowsAreTableRows(rows, p, x);
      }
      var all := Where(rows, p);
      if p(rows[0]) {
        assert all == [rows[0]] + rest;
        forall i, j | 0 <= i < |all| && 0 <= j < |all| && i != j ensures KeyOf(all[i]) != KeyOf(all[j]) {
          if i > 0 && j > 0 {
            assert all[i] == rest[i - 1] && all[j] == rest[j - 1];
          } else if i == 0 {
            assert all[j] in rest;
          } else {
            assert all[i] in rest;
          }
        }
      } else {
        assert all == rest;
      }
    }
  }

  /** Deleting rows keeps reservation ids unique. */
  lemma {:induction false} WhereKeepsUniqueIds(rows: seq<Reservation>, p: Reservation -> bool)
    requires UniqueIds(rows)
    ensures UniqueIds(Where(rows, p))
  {
    if rows != [] {
      var rest := Where(rows[1..], p);
      assert UniqueIds(rows[1..]) by {
        forall i, j | 0 <= i < |rows| - 1 && 0 <= j < |rows| - 1 && i != j
          ensures rows[1..][i].id != rows[1..][j].id {
          assert rows[1..][i] == rows[i + 1] && rows[1..][j] == rows[j + 1];
        }
      }
      WhereKeepsUniqueIds(rows[1..], p);
      forall x | x in rest ensures x.id != rows[0].id {
        WhereRowsAreTableRows(rows, p, x);
      }
      var all := Where(rows, p);
      if p(rows[0]) {
        assert all == [rows[0]] + rest;
        forall i, j | 0 <= i < |all| && 0 <= j < |all| && i != j ensures all[i].id != all[j].id {
          if i > 0 && j > 0 {
            assert all[i] == rest[i - 1] && all[j] == rest[j - 1];
          } else if i == 0 {
            assert all[j] in rest;
          } else {
            assert all[i] in rest;
          }
        }
      } else {
        assert all == rest;
      }
    }
  }

  /** The three facilities seeded into an empty catalog. */
  const DefaultFacilities: seq<InsertFacility> := [
    InsertFacility("Quantum Bowling", "bowling",
      "20 state-of-the-art lanes with holographic scoring systems and cosmic lighting effects", 8, 4500),
    InsertFacility("Nebula Billiards", "billiards",
      "12 premium tables with electromagnetic cue technology and asteroid-inspired designs", 4, 3500),
    InsertFacility("Galactic Arcade", "arcade",
      "100+ cutting-edge games featuring VR, AR, and classic arcade experiences", 20, 2500)
  ]

  function FacilityRow(id: string, f: InsertFacility): Facility {
    Facility(id, f.name, f.kind, f.description, f.capacity, f.hourlyRateCents)
  }

  /** The row an insert produces: the store's id and clock, and the column defaults for absent fields. */
  function ReservationRow(id: string, r: InsertReservation, now: int): Reservation {
    Reservation(id, r.facilityId, r.customerName, r.customerEmail, r.customerPhone,
      r.date, r.time, r.duration.GetOr(1), r.partySize, r.pricingTier, r.totalCostCents,
      r.status.GetOr("confirmed"), now)
  }

  class Store {
    var facilities: seq<Facility>
    var reservations: seq<Reservation>
    var contactMessages: seq<ContactMessage>
    var nextId: nat

    /** Every stored id was handed out by the counter, and the ids within each table are unique. */
    ghost predicate Valid()
      reads this
    {
      && (forall i :: 0 <= i < |facilities| ==> Issued(facilities[i].id, nextId))
      && (forall i, j :: 0 <= i < |facilities| && 0 <= j < |facilities| && i != j ==> facilities[i].id != facilities[j].id)
      && (forall i :: 0 <= i < |reservations| ==> Issued(reservations[i].id, nextId))
      && (forall i :: 0 <= i < |contactMessages| ==> Issued(contactMessages[i].id, nextId))
      && (forall i, j :: 0 <= i < |contactMessages| && 0 <= j < |contactMessages| && i != j ==>
            contactMessages[i].id != contactMessages[j].id)
      && UniqueIds(reservations)
    }

    /** An empty store; seeding is the separate `InitializeDefaultFacilities`. */
    constructor ()
      ensures Valid()
      ensures facilities == [] && reservations == [] && contactMessages == []
    {
      facilities, reservations, contactMessages, nextId := [], [], [], 0;
    }

    /** Hands out a fresh identifier. */
    method NewId() returns (id: string)
      requires Valid()
      modifies this`nextId
      ensures Valid()
      ensures id == NatToString(old(nextId)) && nextId == old(nextId) + 1
      ensures !Issued(id, old(nextId))
      ensures forall x :: Issued(x, old(nextId)) ==> Issued(x, nextId)
    {
      id := NatToString(nextId);
      NextIdIsFresh(nextId);
      nextId := nextId + 1;
    }

    /** `getFacility`: the first facility with that id, or nothing. */
    function GetFacility(id: string): (r: Option<Facility>)
      reads this
      ensures r.None? <==> forall i :: 0 <= i < |facilities| ==> facilities[i].id != id
      ensures r.Some? ==> r.value in facilities && r.value.id == id
    {
      FirstWhere(facilities, (f: Facility) => f.id == id)
    }

    /** `getReservation`: the reservation with that id, or nothing. */
    function GetReservation(id: string): (r: Option<Reservation>)
      reads this
      ensures r.None? <==> forall i :: 0 <= i < |reservations| ==> reservations[i].id != id
      ensures r.Some? ==> r.value in reservations && r.value.id == id
    {
      FirstWhere(reservations, (x: Reservation) => x.id == id)
    }

    /** `getReservationsByDate`: the reservations on that date, in table order. */
    function ReservationsByDate(date: string): (rs: seq<Reservation>)
      reads this
      ensures forall r :: r in rs <==> r in reservations && r.date == date
    {
      Where(reservations, (x: Reservation) => x.date == date)
    }

    /** `getReservationsByFacilityAndDate`: exactly the reservations of that facility on that date. */
    function ReservationsByFacilityAndDate(facilityId: string, date: string): (rs: seq<Reservation>)
      reads this
      ensures forall r :: r in rs <==> r in reservations && r.facilityId == facilityId && r.date == date
    {
      Where(reservations, (x: Reservation) => x.facilityId == facilityId && x.date == date)
    }

    /** `createFacility`: inserts one facility under a fresh id and returns it. */
    method CreateFacility(f: InsertFacility) returns (created: Facility)
      requires Valid()
      modifies this
      ensures Valid()
      ensures created == FacilityRow(created.id, f)
      ensures forall i :: 0 <= i < |old(facilities)| ==> old(facilities)[i].id != created.id
      ensures facilities == old(facilities) + [created]
      ensures reservations == old(reservations) && contactMessages == old(contactMessages)
    {
      var id := NewId();
      created := FacilityRow(id, f);
      facilities := facilities + [created];
    }

    /**
     * `createReservation`: inserts one row under a fresh id, stamped with `now`, with
     * duration 1 and status "confirmed" where the insert leaves them out. Nothing else changes.
     */
    method CreateReservation(r: InsertReservation, now: int) returns (created: Reservation)
      requires Valid()
      modifies this
      ensures Valid()
      ensures created == ReservationRow(created.id, r, now)
      ensures forall i :: 0 <= i < |old(reservations)| ==> old(reservations)[i].id != created.id
      ensures reservations == old(reservations) + [created]
      ensures facilities == old(facilities) && contactMessages == old(contactMessages)
    {
      var id := NewId();
      created := ReservationRow(id, r, now);
      reservations := reservations + [created];
    }

    /**
     * `updateReservation`: the row with that id gets the supplied fields; every other row
     * stays as it was. Returns the updated row, or nothing when no row has that id.
     */
    method UpdateReservation(id: string, p: ReservationPatch) returns (updated: Option<Reservation>)
      requires Valid()
      modifies this`reservations
      ensures Valid()
      ensures |reservations| == |old(reservations)|
      ensures forall i :: 0 <= i < |reservations| ==>
        reservations[i] == if old(reservations)[i].id == id then Merge(old(reservations)[i], p) else old(reservations)[i]
      ensures updated.None? <==> forall i :: 0 <= i < |old(reservations)| ==> old(reservations)[i].id != id
      ensures updated.Some? ==>
        exists i :: 0 <= i < |old(reservations)| && old(reservations)[i].id == id && updated.value == Merge(old(reservations)[i], p) == reservations[i]
    {
      var rows := reservations;
      reservations := seq(|rows|, i requires 0 <= i < |rows| => if rows[i].id == id then Merge(rows[i], p) else rows[i]);
      updated := FirstWhere(reservations, (x: Reservation) => x.id == id);
    }

    /** `deleteReservation`: removes the row with that id; true exactly when there was one. */
    method DeleteReservation(id: string) returns (deleted: bool)
      requires Valid()
      modifies this`reservations
      ensures Valid()
      ensures deleted <==> exists i :: 0 <= i < |old(reservations)| && old(reservations)[i].id == id
      ensures forall r :: r in reservations <==> r in old(reservations) && r.id != id
      ensures NoDoubleBooking(old(reservations)) ==> NoDoubleBooking(reservations)
    {
      var rows := reservations;
      reservations := Where(rows, (x: Reservation) => x.id != id);
      WhereKeepsUniqueIds(rows, (x: Reservation) => x.id != id);
      if NoDoubleBooking(rows) {
        WhereKeepsNoDoubleBooking(rows, (x: Reservation) => x.id != id);
      }
      forall i | 0 <= i < |reservations| ensures Issued(reservations[i].id, nextId) {
        assert reservations[i] in rows;
      }
      deleted := |reservations| < |rows|;
    }

    /** `createContactMessage`: inserts one message under a fresh id, stamped with `now`. */
    method CreateContactMessage(m: InsertContactMessage, now: int) returns (created: ContactMessage)
      requires Valid()
      modifies this
      ensures Valid()
      ensures created == ContactMessage(created.id, m.name, m.email, m.message, now)
      ensures forall i :: 0 <= i < |old(contactMessages)| ==> old(contactMessages)[i].id != created.id
      ensures contactMessages == old(contactMessages) + [created]
      ensures facilities == old(facilities) && reservations == old(reservations)
    {
      var id := NewId();
      created := ContactMessage(id, m.name, m.email, m.message, now);
      contactMessages := contactMessages + [created];
    }

    /**
     * `initializeDefaultFacilities`: when the catalog is empty, inserts the three default
     * facilities; otherwise changes nothing. Either way the catalog is non-empty afterwards,
     * so a second call changes nothing.
     */
    method InitializeDefaultFacilities()
      requires Valid()
      modifies this
      ensures Valid()
      ensures facilities != []
      ensures old(facilities) != [] ==> facilities == old(facilities) && nextId == old(nextId)
      ensures old(facilities) == [] ==> |facilities| == |DefaultFacilities|
      ensures old(facilities) == [] ==>
        forall i :: 0 <= i < |DefaultFacilities| ==> facilities[i] == FacilityRow(facilities[i].id, DefaultFacilities[i])
      ensures reservations == old(reservations) && contactMessages == old(contactMessages)
    {
      if facilities != [] {
        return;
      }
      var bowling := NewId();
      var billiards := NewId();
      var arcade := NewId();
      facilities := [FacilityRow(bowling, DefaultFacilities[0]), FacilityRow(billiards, DefaultFacilities[1]),
                     FacilityRow(arcade, DefaultFacilities[2])];
    }
  }
}
