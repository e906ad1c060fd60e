/**
 * The record shapes of the booking service (tables `facilities`, `reservations` and
 * `contact_messages`) and the validation rules of the two insert schemas: the rules a
 * reservation request and a contact request must satisfy before anything is stored.
 *
 * Money is held in integer cents (the decimal columns have scale 2). A JSON request body
 * is a record of optional fields: `None` is a key the client did not send.
 */
module Schema {
  import opened Wrappers
  import opened Seqs
  import opened Text

  // ---------------------------------------------------------------------------------
  // Rows
  // ---------------------------------------------------------------------------------

  /** A row of `facilities`; `kind` is the `type` column ("bowling", "billiards", "arcade"). */
  datatype Facility = Facility(
    id: string, name: string, kind: string, description: string,
    capacity: int, hourlyRateCents: int)

  /** A row of `reservations`. `createdAt` is the clock reading at insertion. */
  datatype Reservation = Reservation(
    id: string, facilityId: string,
    customerName: string, customerEmail: string, customerPhone: string,
    date: string, time: string, duration: int, partySize: int,
    pricingTier: string, totalCostCents: int, status: string, createdAt: int)

  /** A row of `contact_messages`. */
  datatype ContactMessage = ContactMessage(
    id: string, name: string, email: string, message: string, createdAt: int)

  /** The slot a reservation occupies: two reservations with equal keys are a double booking. */
  datatype SlotKey = SlotKey(facilityId: string, date: string, time: string)

  function KeyOf(r: Reservation): SlotKey {
    SlotKey(r.facilityId, r.date, r.time)
  }

  /** The double-booking invariant: no two reservations occupy the same slot. */
  ghost predicate NoDoubleBooking(rs: seq<Reservation>) {
    forall i, j :: 0 <= i < |rs| && 0 <= j < |rs| && i != j ==> KeyOf(rs[i]) != KeyOf(rs[j])
  }

  /** No two reservations share an id. */
  ghost predicate UniqueIds(rs: seq<Reservation>) {
    forall i, j :: 0 <= i < |rs| && 0 <= j < |rs| && i != j ==> rs[i].id != rs[j].id
  }

  // ---------------------------------------------------------------------------------
  // Insert shapes (what the store receives: no id, no createdAt)
  // ---------------------------------------------------------------------------------

  datatype InsertFacility = InsertFacility(
    name: string, kind: string, description: string, capacity: int, hourlyRateCents: int)

  /**
   * A reservation as the store inserts it. `duration` and `status` may be absent; the
   * column defaults (1 and "confirmed") then apply.
   */
  datatype InsertReservation = InsertReservation(
    facilityId: string, customerName: string, customerEmail: string, customerPhone: string,
    date: string, time: string, duration: Option<int>, partySize: int,
    pricingTier: string, totalCostCents: int, status: Option<string>)

  datatype InsertContactMessage = InsertContactMessage(name: string, email: string, message: string)

  // ---------------------------------------------------------------------------------
  // Request bodies and the data that validation lets through
  // ---------------------------------------------------------------------------------

  /**
   * The JSON body of a reservation request. `id` and `createdAt` are keys a client may
   * send; the insert schema omits them, so validation drops them.
   */
  datatype ReservationBody = ReservationBody(
    id: Option<string>, facilityId: Option<string>,
    customerName: Option<string>, customerEmail: Option<string>, customerPhone: Option<string>,
    date: Option<string>, time: Option<string>, duration: Option<int>, partySize: Option<int>,
    pricingTier: Option<string>, totalCost: Option<string>, status: Option<string>,
    createdAt: Option<int>)

  /** The validated reservation data: the client's `totalCost` text is still in it. */
  datatype ReservationInput = ReservationInput(
    facilityId: string, customerName: string, customerEmail: string, customerPhone: string,
    date: string, time: string, duration: Option<int>, partySize: int,
    pricingTier: string, totalCost: string, status: Option<string>)

  datatype ContactBody = ContactBody(
    id: Option<string>, name: Option<string>, email: Option<string>, message: Option<string>,
    createdAt: Option<int>)

  /** The fields a reservation request can fail on. */
  datatype ReservationField =
    | FacilityId | CustomerName | CustomerEmail | CustomerPhone | Date | Time
    | PartySize | PricingTier | TotalCost

  /** The fields a contact request can fail on. */
  datatype ContactField = Name | Email | Message

  const ReservationFields: seq<ReservationField> :=
    [FacilityId, CustomerName, CustomerEmail, CustomerPhone, Date, Time, PartySize, PricingTier, TotalCost]

  const ContactFields: seq<ContactField> := [Name, Email, Message]

  // ---------------------------------------------------------------------------------
  // Calendar days
  // ---------------------------------------------------------------------------------

  /** A calendar day; "today" is passed in as one of these. */
  datatype Day = Day(year: int, month: int, day: int)

  /** Strictly earlier, in calendar order. */
  predicate Before(a: Day, b: Day) {
    a.year < b.year
    || (a.year == b.year && a.month < b.month)
    || (a.year == b.year && a.month == b.month && a.day < b.day)
  }

  predicate IsDigit(c: char) { '0' <= c <= '9' }

  function DigitValue(c: char): int { c as int - '0' as int }

  /** The day a `YYYY-MM-DD` string names, or `None` when it names none. */
  function ParseIsoDate(s: string): (r: Option<Day>)
    ensures r.Some? ==> 1 <= r.value.month <= 12 && 1 <= r.value.day <= 31
    ensures r.Some? ==> |s| == 10 && s[4] == '-' && s[7] == '-'
  {
    if |s| == 10 && s[4] == '-' && s[7] == '-'
       && IsDigit(s[0]) && IsDigit(s[1]) && IsDigit(s[2]) && IsDigit(s[3])
       && IsDigit(s[5]) && IsDigit(s[6]) && IsDigit(s[8]) && IsDigit(s[9])
    then
      var y := 1000 * DigitValue(s[0]) + 100 * DigitValue(s[1]) + 10 * DigitValue(s[2]) + DigitValue(s[3]);
      var m := 10 * DigitValue(s[5]) + DigitValue(s[6]);
      var d := 10 * DigitValue(s[8]) + DigitValue(s[9]);
      if 1 <= m <= 12 && 1 <= d <= 31 then Some(Day(y, m, d)) else None
    else None
  }

  /** A day that `YYYY-MM-DD` can write: a four-digit year, a month and a day of the month. */
  predicate Writable(d: Day) {
    0 <= d.year <= 9999 && 1 <= d.month <= 12 && 1 <= d.day <= 31
  }

  /** The `YYYY-MM-DD` text of a day, zero-padded. */
  function FormatIsoDate(d: Day): (s: string)
    requires Writable(d)
    ensures |s| == 10 && s[4] == '-' && s[7] == '-'
  {
    var y := d.year;
    [Digit(y / 10 / 10 / 10), Digit(y / 10 / 10 % 10), Digit(y / 10 % 10), Digit(y % 10), '-',
     Digit(d.month / 10), Digit(d.month % 10), '-', Digit(d.day / 10), Digit(d.day % 10)]
  }

  lemma DigitRoundTrip(k: nat)
    requires k < 10
    ensures IsDigit(Digit(k)) && DigitValue(Digit(k)) == k
  {
  }

  /** Every writable day is accepted, and parsing its text gives the same day back. */
  lemma ParseFormattedDate(d: Day)
    requires Writable(d)
    ensures ParseIsoDate(FormatIsoDate(d)) == Some(d)
  {
    var y, m, dd := d.year, d.month, d.day;
    DigitRoundTrip(y / 10 / 10 / 10); DigitRoundTrip(y / 10 / 10 % 10);
    DigitRoundTrip(y / 10 % 10); DigitRoundTrip(y % 10);
    DigitRoundTrip(m / 10); DigitRoundTrip(m % 10); DigitRoundTrip(dd / 10); DigitRoundTrip(dd % 10);
    FourDigitValue(y);
    DivModTen(m / 10, m % 10);
    DivModTen(dd / 10, dd % 10);
  }

  /** A string that parses is exactly the text of the day it names: no other spelling is accepted. */
  lemma FormatParsedDate(s: string)
    requires ParseIsoDate(s).Some?
    ensures Writable(ParseIsoDate(s).value) && FormatIsoDate(ParseIsoDate(s).value) == s
  {
    var d := ParseIsoDate(s).value;
    FourDigitSplit(DigitValue(s[0]), DigitValue(s[1]), DigitValue(s[2]), DigitValue(s[3]));
    DivModTen(DigitValue(s[5]), DigitValue(s[6]));
    DivModTen(DigitValue(s[8]), DigitValue(s[9]));
    var t := FormatIsoDate(d);
    forall i | 0 <= i < 10 ensures t[i] == s[i] {
    }
  }

  /** The date refinement: the string names a day that is today or later. */
  predicate TodayOrLater(s: string, today: Day) {
    match ParseIsoDate(s)
    case None => false
    case Some(d) => !Before(d, today)
  }

  // ---------------------------------------------------------------------------------
  // E-mail addresses, after zod's `email()` pattern
  //   local part: letters, digits and _ ' + - . ; no leading dot, no two dots in a row,
  //               last character a letter, digit, _, + or -
  //   domain:     one or more labels (a letter or digit, then letters, digits or -)
  //               each followed by a dot, then two or more letters
  // read left to right, one character at a time.
  // ---------------------------------------------------------------------------------

  predicate IsLetter(c: char) { 'a' <= c <= 'z' || 'A' <= c <= 'Z' }

  predicate IsAlnum(c: char) { IsLetter(c) || IsDigit(c) }

  predicate IsWordChar(c: char) { IsAlnum(c) || c == '_' || c == '+' || c == '-' }

  predicate LocalChar(c: char) { IsWordChar(c) || c == '\'' || c == '.' }

  /** The rest of the address from `i`, inside the local part; `s[i - 1]` was accepted. */
  predicate LocalFrom(s: string, i: nat)
    requires 0 < i <= |s|
    decreases |s| - i
  {
    if i == |s| then false
    else if s[i] == '@' then IsWordChar(s[i - 1]) && DomainFrom(s, i + 1, true, false, 0)
    else LocalChar(s[i]) && !(s[i] == '.' && s[i - 1] == '.') && LocalFrom(s, i + 1)
  }

  /**
   * The rest of the address from `i`, inside the domain. `labelStart`: the next character
   * starts a label; `sawDot`: a dot has been read; `letters`: the number of letters read
   * since the last dot, or -1 once something other than a letter was read there.
   */
  predicate DomainFrom(s: string, i: nat, labelStart: bool, sawDot: bool, letters: int)
    requires i <= |s|
    decreases |s| - i
  {
    if i == |s| then sawDot && !labelStart && letters >= 2
    else if labelStart then
      IsAlnum(s[i]) && DomainFrom(s, i + 1, false, sawDot, if IsLetter(s[i]) then 1 else -1)
    else if s[i] == '.' then DomainFrom(s, i + 1, true, true, 0)
    else if IsAlnum(s[i]) || s[i] == '-' then
      DomainFrom(s, i + 1, false, sawDot, if IsLetter(s[i]) && letters >= 0 then letters + 1 else -1)
    else false
  }

  predicate IsEmail(s: string) {
    |s| > 0 && LocalChar(s[0]) && s[0] != '.' && LocalFrom(s, 1)
  }

  // ---------------------------------------------------------------------------------
  // The insert schemas
  // ---------------------------------------------------------------------------------

  /** The rule each field of a reservation request must meet; true when it is broken. */
  predicate ReservationFieldRejected(b: ReservationBody, today: Day, f: ReservationField) {
    match f
    case FacilityId => b.facilityId.None?
    case CustomerName => b.customerName.None?
    case CustomerEmail => b.customerEmail.None? || !IsEmail(b.customerEmail.value)
    case CustomerPhone => b.customerPhone.None? || |b.customerPhone.value| < 10
    case Date => b.date.None? || !TodayOrLater(b.date.value, today)
    case Time => b.time.None?
    case PartySize => b.partySize.None? || b.partySize.value < 1 || b.partySize.value > 20
    case PricingTier => b.pricingTier.None?
    case TotalCost => b.totalCost.None?
  }

  /** The rule each field of a contact request must meet; true when it is broken. */
  predicate ContactFieldRejected(b: ContactBody, f: ContactField) {
    match f
    case Name => b.name.None?
    case Email => b.email.None? || !IsEmail(b.email.value)
    case Message => b.message.None? || |b.message.value| < 10
  }

  lemma EveryReservationFieldListed(f: ReservationField)
    ensures f in ReservationFields
  {
  }

  lemma EveryContactFieldListed(f: ContactField)
    ensures f in ContactFields
  {
  }

  /** The issue list of a reservation request: exactly the fields that break their rule. */
  function ReservationIssues(b: ReservationBody, today: Day): (r: seq<ReservationField>)
    ensures forall f :: f in r <==> ReservationFieldRejected(b, today, f)
  {
    var issues := Where(ReservationFields, f => ReservationFieldRejected(b, today, f));
    assert forall f :: f in issues <==> ReservationFieldRejected(b, today, f) by {
      forall f ensures f in issues <==> ReservationFieldRejected(b, today, f) {
        EveryReservationFieldListed(f);
      }
    }
    issues
  }

  /** The issue list of a contact request: exactly the fields that break their rule. */
  function ContactIssues(b: ContactBody): (r: seq<ContactField>)
    ensures forall f :: f in r <==> ContactFieldRejected(b, f)
  {
    var issues := Where(ContactFields, f => ContactFieldRejected(b, f));
    assert forall f :: f in issues <==> ContactFieldRejected(b, f) by {
      forall f ensures f in issues <==> ContactFieldRejected(b, f) { EveryContactFieldListed(f); }
    }
    issues
  }

  /** A request that breaks no rule carries every required key. */
  lemma RequiredFieldsPresent(b: ReservationBody, today: Day)
    requires forall f :: !ReservationFieldRejected(b, today, f)
    ensures b.facilityId.Some? && b.customerName.Some? && b.customerEmail.Some?
    ensures b.customerPhone.Some? && b.date.Some? && b.time.Some?
    ensures b.partySize.Some? && b.pricingTier.Some? && b.totalCost.Some?
  {
    assert !ReservationFieldRejected(b, today, FacilityId);
    assert !ReservationFieldRejected(b, today, CustomerName);
    assert !ReservationFieldRejected(b, today, CustomerEmail);
    assert !ReservationFieldRejected(b, today, CustomerPhone);
    assert !ReservationFieldRejected(b, today, Date);
    assert !ReservationFieldRejected(b, today, Time);
    assert !ReservationFieldRejected(b, today, PartySize);
    assert !ReservationFieldRejected(b, today, PricingTier);
    assert !ReservationFieldRejected(b, today, TotalCost);
  }

  /**
   * `insertReservationSchema.parse`: either the validated data, or the list of the fields
   * that break their rule. Keys outside the schema (`id`, `createdAt`) are dropped.
   */
  function ParseReservation(b: ReservationBody, today: Day): (r: Result<ReservationInput, seq<ReservationField>>)
    ensures r.Success? <==> ReservationIssues(b, today) == []
    ensures r.Failure? ==> r.error == ReservationIssues(b, today)
    ensures r.Success? ==>
      && Some(r.value.facilityId) == b.facilityId && Some(r.value.customerName) == b.customerName
      && Some(r.value.customerEmail) == b.customerEmail && Some(r.value.customerPhone) == b.customerPhone
      && Some(r.value.date) == b.date && Some(r.value.time) == b.time
      && r.value.duration == b.duration && Some(r.value.partySize) == b.partySize
      && Some(r.value.pricingTier) == b.pricingTier && Some(r.value.totalCost) == b.totalCost
      && r.value.status == b.status
  {
    var issues := ReservationIssues(b, today);
    if issues == [] then
      assert forall f :: !ReservationFieldRejected(b, today, f);
      RequiredFieldsPresent(b, today);
      Success(ReservationInput(
        b.facilityId.value, b.customerName.value, b.customerEmail.value, b.customerPhone.value,
        b.date.value, b.time.value, b.duration, b.partySize.value,
        b.pricingTier.value, b.totalCost.value, b.status))
    else
      Failure(issues)
  }

  /** `insertContactMessageSchema.parse`: the message fields, or exactly the broken fields. */
  function ParseContact(b: ContactBody): (r: Result<InsertContactMessage, seq<ContactField>>)
    ensures r.Success? <==> ContactIssues(b) == []
    ensures r.Failure? ==> r.error == ContactIssues(b)
    ensures r.Success? ==>
      Some(r.value.name) == b.name && Some(r.value.email) == b.email && Some(r.value.message) == b.message
  {
    var issues := ContactIssues(b);
    if issues == [] then
      assert Name !in issues && Email !in issues && Message !in issues;
      Success(InsertContactMessage(b.name.value, b.email.value, b.message.value))
    else
      Failure(issues)
  }

  /** A reservation request is accepted exactly when no field breaks its rule. */
  lemma ReservationAcceptedIffNoRuleBroken(b: ReservationBody, today: Day)
    ensures ParseReservation(b, today).Success? <==> forall f :: !ReservationFieldRejected(b, today, f)
    ensures ParseReservation(b, today).Failure? ==>
      forall f :: f in ParseReservation(b, today).error <==> ReservationFieldRejected(b, today, f)
  {
    var issues := ReservationIssues(b, today);
    if issues != [] {
      assert issues[0] in issues;
    }
  }

  /** A contact request is accepted exactly when no field breaks its rule. */
  lemma ContactAcceptedIffNoRuleBroken(b: ContactBody)
    ensures ParseContact(b).Success? <==> forall f :: !ContactFieldRejected(b, f)
    ensures ParseContact(b).Failure? ==>
      forall f :: f in ParseContact(b).error <==> ContactFieldRejected(b, f)
  {
    var issues := ContactIssues(b);
    if issues != [] {
      assert issues[0] in issues;
    }
  }

  // ---------------------------------------------------------------------------------
  // Consequences of the rules
  // ---------------------------------------------------------------------------------

  /** The addresses used by the route tests: the two real ones pass, "invalid" does not. */
  lemma EmailExamples()
    ensures IsEmail("jane@example.com") && IsEmail("john@example.com")
    ensures !IsEmail("invalid")
  {
    FourLetterAddress("jane@example.com");
    FourLetterAddress("john@example.com");
    var s := "invalid";
    assert !LocalFrom(s, 7);
    assert !LocalFrom(s, 6);
    assert !LocalFrom(s, 5);
    assert !LocalFrom(s, 4);
    assert !LocalFrom(s, 3);
    assert !LocalFrom(s, 2);
    assert !LocalFrom(s, 1);
  }

  /** "example.com" after the '@' is an acceptable domain. */
  lemma ExampleDomain(s: string, i: nat)
    requires i + 11 == |s| && s[i..] == "example.com"
    ensures DomainFrom(s, i, true, false, 0)
  {
    forall k | 0 <= k < 11 ensures s[i + k] == "example.com"[k] {
      assert s[i..][k] == s[i + k];
    }
    assert DomainFrom(s, i + 11, false, true, 3);
    assert DomainFrom(s, i + 10, false, true, 2);
    assert DomainFrom(s, i + 9, false, true, 1);
    assert DomainFrom(s, i + 8, true, true, 0);
    assert DomainFrom(s, i + 7, false, false, 7);
    assert DomainFrom(s, i + 6, false, false, 6);
    assert DomainFrom(s, i + 5, false, false, 5);
    assert DomainFrom(s, i + 4, false, false, 4);
    assert DomainFrom(s, i + 3, false, false, 3);
    assert DomainFrom(s, i + 2, false, false, 2);
    assert DomainFrom(s, i + 1, false, false, 1);
    assert DomainFrom(s, i, true, false, 0);
  }

  /** A four-letter name at "example.com", the shape of both test addresses, is an e-mail address. */
  lemma FourLetterAddress(s: string)
    requires |s| == 16 && s[4..] == "@example.com"
    requires IsLetter(s[0]) && IsLetter(s[1]) && IsLetter(s[2]) && IsLetter(s[3])
    ensures IsEmail(s)
  {
    assert s[4] == '@' && s[5..] == s[4..][1..];
    ExampleDomain(s, 5);
    assert LocalFrom(s, 4);
    assert LocalFrom(s, 3);
    assert LocalFrom(s, 2);
    assert LocalFrom(s, 1);
  }

  /** A customer phone shorter than ten characters is refused, and the issue names the phone. */
  lemma ShortPhoneRejected(b: ReservationBody, today: Day)
    requires b.customerPhone.Some? && |b.customerPhone.value| < 10
    ensures ParseReservation(b, today).Failure?
    ensures CustomerPhone in ParseReservation(b, today).error
  {
    assert ReservationFieldRejected(b, today, CustomerPhone);
    assert CustomerPhone in ReservationIssues(b, today);
  }

  /** Only party sizes from 1 to 20 get through; 0 and 21 are refused. */
  lemma PartySizeBounds(b: ReservationBody, today: Day)
    ensures ParseReservation(b, today).Success? ==> 1 <= b.partySize.value <= 20
    ensures b.partySize == Some(0) || b.partySize == Some(21) ==>
      ParseReservation(b, today).Failure? && PartySize in ParseReservation(b, today).error
    ensures PartySize in ReservationIssues(b, today) <==>
      b.partySize.None? || b.partySize.value < 1 || b.partySize.value > 20
  {
    assert PartySize in ReservationIssues(b, today) <==> ReservationFieldRejected(b, today, PartySize);
    if ParseReservation(b, today).Success? {
      RequiredFieldsPresent(b, today);
      assert PartySize !in ReservationIssues(b, today);
    }
    if b.partySize == Some(0) || b.partySize == Some(21) {
      assert ReservationFieldRejected(b, today, PartySize);
      assert PartySize in ReservationIssues(b, today);
    }
  }

  /** A reservation date that names a day before today is refused. */
  lemma PastDateRejected(b: ReservationBody, today: Day)
    requires b.date.Some? && ParseIsoDate(b.date.value).Some?
    requires Before(ParseIsoDate(b.date.value).value, today)
    ensures ParseReservation(b, today).Failure? && Date in ParseReservation(b, today).error
  {
    assert ReservationFieldRejected(b, today, Date);
    assert Date in ReservationIssues(b, today);
  }

  /** A date that is not of the form YYYY-MM-DD is refused too. */
  lemma UnparsableDateRejected(b: ReservationBody, today: Day)
    requires b.date.Some? && ParseIsoDate(b.date.value).None?
    ensures ParseReservation(b, today).Failure? && Date in ParseReservation(b, today).error
  {
    assert ReservationFieldRejected(b, today, Date);
    assert Date in ReservationIssues(b, today);
  }

  /** What a client sends as `id` or `createdAt` does not reach the validated data. */
  lemma ClientKeysIgnored(b: ReservationBody, today: Day, id: Option<string>, createdAt: Option<int>)
    ensures ParseReservation(b.(id := id, createdAt := createdAt), today) == ParseReservation(b, today)
  {
    var b1 := b.(id := id, createdAt := createdAt);
    forall f ensures ReservationFieldRejected(b1, today, f) == ReservationFieldRejected(b, today, f) {
    }
    WhereAgrees(ReservationFields, f => ReservationFieldRejected(b1, today, f), f => ReservationFieldRejected(b, today, f));
  }

  /**
   * `time`, `pricingTier` and `status` are free-form: once `time` and `pricingTier` are
   * present, replacing them (and `status`) by any strings does not change which fields
   * are refused.
   */
  lemma UnconstrainedKeys(b: ReservationBody, today: Day, time: string, tier: string, status: Option<string>)
    requires b.time.Some? && b.pricingTier.Some?
    ensures ReservationIssues(b.(time := Some(time), pricingTier := Some(tier), status := status), today)
      == ReservationIssues(b, today)
  {
    var b2 := b.(time := Some(time), pricingTier := Some(tier), status := status);
    forall f ensures ReservationFieldRejected(b2, today, f) == ReservationFieldRejected(b, today, f) {
    }
    WhereAgrees(ReservationFields, f => ReservationFieldRejected(b2, today, f), f => ReservationFieldRejected(b, today, f));
  }

  /** The two contact requests of the route tests: the first is accepted as sent, the second refused. */
  lemma ContactExamples()
    ensures ParseContact(ContactBody(None, Some("Jane"), Some("jane@example.com"), Some("Hello from space!"), None))
      == Success(InsertContactMessage("Jane", "jane@example.com", "Hello from space!"))
    ensures var r := ParseContact(ContactBody(None, Some(""), Some("invalid"), Some("short"), None));
      r.Failure? && Email in r.error && Message in r.error && Name !in r.error
  {
    EmailExamples();
  }
}
