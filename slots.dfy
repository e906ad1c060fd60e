/**
 * The availability calendar of one facility on one date: thirteen hourly slots from
 * 10:00 to 22:00, each marked booked when a reservation of that facility and date has
 * exactly that time string, each with a 12-hour display string.
 */
module Slots {
  import opened Text
  import opened Schema

  const FirstHour: nat := 10
  const LastHour: nat := 22
  const SlotCount: nat := LastHour - FirstHour + 1

  datatype Slot = Slot(time: string, available: bool, displayTime: string)

  /** `${hour.toString().padStart(2, '0')}:00` */
  function TimeString(hour: nat): string {
    PadStart2(NatToString(hour)) + ":00"
  }

  /** `hour <= 12 ? "<hour>:00 AM" : "<hour - 12>:00 PM"`; hour 12 renders as "12:00 AM". */
  function DisplayTime(hour: nat): string {
    if hour <= 12 then NatToString(hour) + ":00 AM" else NatToString(hour - 12) + ":00 PM"
  }

  /** `reservations.some(r => r.time === t)` */
  predicate TimeTaken(rs: seq<Reservation>, t: string) {
    exists i | 0 <= i < |rs| :: rs[i].time == t
  }

  /** A time string some slot of the calendar carries. */
  predicate OnGrid(t: string) {
    exists h | FirstHour <= h <= LastHour :: TimeString(h) == t
  }

  /**
   * The slot loop of the availability handler, over the reservations already selected
   * for one facility and date: slot `i` is hour 10 + i, and it is available exactly when
   * no reservation carries its time string.
   */
  method Calendar(rs: seq<Reservation>) returns (slots: seq<Slot>)
    ensures |slots| == SlotCount
    ensures forall i :: 0 <= i < |slots| ==>
      slots[i].time == TimeString(FirstHour + i) && slots[i].displayTime == DisplayTime(FirstHour + i)
    ensures forall i :: 0 <= i < |slots| ==>
      (slots[i].available <==> forall r :: r in rs ==> r.time != slots[i].time)
  {
    slots := [];
    for hour := FirstHour to LastHour + 1
      invariant |slots| == hour - FirstHour
      invariant forall i :: 0 <= i < |slots| ==>
        slots[i] == Slot(TimeString(FirstHour + i), !TimeTaken(rs, TimeString(FirstHour + i)), DisplayTime(FirstHour + i))
    {
      var time := TimeString(hour);
      var isBooked := TimeTaken(rs, time);
      slots := slots + [Slot(time, !isBooked, DisplayTime(hour))];
    }
    forall i | 0 <= i < |slots| ensures slots[i].available <==> forall r :: r in rs ==> r.time != slots[i].time {
      TimeTakenBySomeReservation(rs, slots[i].time);
    }
  }

  /** The index search of `TimeTaken` finds a time exactly when some reservation carries it. */
  lemma TimeTakenBySomeReservation(rs: seq<Reservation>, t: string)
    ensures TimeTaken(rs, t) <==> exists r :: r in rs && r.time == t
  {
    if r :| r in rs && r.time == t {
      var i :| 0 <= i < |rs| && rs[i] == r;
    }
  }

  /** Every slot time is two digits of the hour followed by ":00". */
  lemma SlotTimeShape(hour: nat)
    requires FirstHour <= hour <= LastHour
    ensures TimeString(hour) == [Digit(hour / 10), Digit(hour % 10), ':', '0', '0']
  {
    TwoDigitRendering(hour);
    assert PadStart2(NatToString(hour)) == [Digit(hour / 10), Digit(hour % 10)];
  }

  /** The thirteen slot times, written out. */
  lemma SlotTimes()
    ensures seq(SlotCount, i requires 0 <= i < SlotCount => TimeString(FirstHour + i)) ==
      ["10:00", "11:00", "12:00", "13:00", "14:00", "15:00", "16:00",
       "17:00", "18:00", "19:00", "20:00", "21:00", "22:00"]
  {
    var times := seq(SlotCount, i requires 0 <= i < SlotCount => TimeString(FirstHour + i));
    var written := ["10:00", "11:00", "12:00", "13:00", "14:00", "15:00", "16:00",
                    "17:00", "18:00", "19:00", "20:00", "21:00", "22:00"];
    forall k | 0 <= k < SlotCount ensures times[k] == written[k] {
      SlotTimeShape(FirstHour + k);
    }
  }

  /** Later hours have later time strings, so the calendar is in ascending order. */
  lemma SlotTimesAscending(a: nat, b: nat)
    requires FirstHour <= a < b <= LastHour
    ensures LexLess(TimeString(a), TimeString(b))
    ensures TimeString(a) != TimeString(b)
  {
    SlotTimeShape(a);
    SlotTimeShape(b);
    var s, t := TimeString(a), TimeString(b);
    if a / 10 == b / 10 {
      assert s[0] == t[0] && s[1] < t[1];
      assert LexLess(s[1..], t[1..]);
    } else {
      assert s[0] < t[0];
    }
  }

  /** A reservation whose time is off the hourly grid (such as "10:30") blocks no slot. */
  lemma OffGridBlocksNothing(rs: seq<Reservation>, r: Reservation, hour: nat)
    requires !OnGrid(r.time)
    requires FirstHour <= hour <= LastHour
    ensures TimeTaken(rs + [r], TimeString(hour)) == TimeTaken(rs, TimeString(hour))
  {
    if TimeTaken(rs + [r], TimeString(hour)) {
      var i :| 0 <= i < |rs + [r]| && (rs + [r])[i].time == TimeString(hour);
      assert i < |rs|;
    }
    if TimeTaken(rs, TimeString(hour)) {
      var i :| 0 <= i < |rs| && rs[i].time == TimeString(hour);
      assert (rs + [r])[i] == rs[i];
    }
  }

  lemma HalfHourIsOffGrid()
    ensures !OnGrid("10:30")
  {
    forall h | FirstHour <= h <= LastHour ensures TimeString(h) != "10:30" {
      SlotTimeShape(h);
    }
  }

  /** The 12-hour rendering as written: noon reads "12:00 AM", 13 reads "1:00 PM", 22 reads "10:00 PM". */
  lemma DisplayTimeExamples()
    ensures DisplayTime(10) == "10:00 AM"
    ensures DisplayTime(12) == "12:00 AM"
    ensures DisplayTime(13) == "1:00 PM"
    ensures DisplayTime(22) == "10:00 PM"
  {
    TwoDigitRendering(10);
    TwoDigitRendering(12);
    assert NatToString(10) == "10" && NatToString(12) == "12" && NatToString(1) == "1";
    assert DisplayTime(10) == "10" + ":00 AM";
    assert DisplayTime(12) == "12" + ":00 AM";
    assert DisplayTime(13) == "1" + ":00 PM";
    assert DisplayTime(22) == "10" + ":00 PM";
  }

  /** Different hours display differently: the suffix separates AM from PM, the number does the rest. */
  lemma DisplayTimeInjective(a: nat, b: nat)
    requires DisplayTime(a) == DisplayTime(b)
    ensures a == b
  {
    var s := DisplayTime(a);
    assert s[|s| - 2] == (if a <= 12 then 'A' else 'P') == (if b <= 12 then 'A' else 'P');
    if a <= 12 {
      assert NatToString(a) == s[..|s| - 6] == NatToString(b);
      NatToStringInjective(a, b);
    } else {
      assert NatToString(a - 12) == s[..|s| - 6] == NatToString(b - 12);
      NatToStringInjective(a - 12, b - 12);
    }
  }
}
