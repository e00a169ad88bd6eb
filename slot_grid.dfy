/** The day's slot grid of `getAvailableSlots`: sixteen half-hour labels
    from 9:00 to 17:00, written with unpadded 24-hour numerals, and a reader
    for such labels that recovers the minutes they denote. */
module SlotGrid {
  import opened Common
  import opened Decimal
  import Seqs

  /** `${hour}:${minutes}` */
  function Clock(hour: nat, minutes: string): string {
    NatToString(hour) + ":" + minutes
  }

  /** The first (`second == false`) or second half hour starting at `hour`:
      `${hour}:00-${hour}:30` or `${hour}:30-${hour + 1}:00`. */
  function SlotLabel(hour: nat, second: bool): string {
    if second then Clock(hour, "30") + "-" + Clock(hour + 1, "00")
    else Clock(hour, "00") + "-" + Clock(hour, "30")
  }

  /** The grid the loop `for (hour = 9; hour <= 16; hour++)` pushes: entry
      `i` is the `i % 2`-th half of hour `9 + i / 2`. */
  function Grid(): seq<string> {
    seq(16, i requires 0 <= i < 16 => SlotLabel(9 + i / 2, i % 2 == 1))
  }

  /** Builds the grid as the controller does, two labels per hour. */
  method BuildGrid() returns (allSlots: seq<string>)
    ensures allSlots == Grid()
  {
    allSlots := [];
    for hour := 9 to 17
      invariant |allSlots| == 2 * (hour - 9)
      invariant forall k :: 0 <= k < |allSlots| ==> allSlots[k] == Grid()[k]
    {
      allSlots := allSlots + [SlotLabel(hour, false)];
      allSlots := allSlots + [SlotLabel(hour, true)];
    }
  }

  /** Reads `H:MM` at the front of `s`: the minutes since midnight it names
      and what follows it. */
  function ParseClock(s: string): Option<(nat, string)> {
    var k := DigitRun(s);
    if 1 <= k && k + 3 <= |s| && s[k] == ':' && IsDigit(s[k + 1]) && IsDigit(s[k + 2]) then
      Some((ParseNat(s[..k]) * 60 + ParseNat(s[k + 1..k + 3]), s[k + 3..]))
    else None
  }

  /** Reads a whole label `H:MM-H:MM` as its start and end minutes. */
  function ParseSlot(slot: string): Option<(nat, nat)> {
    match ParseClock(slot)
    case None => None
    case Some((start, rest)) =>
      if |rest| >= 1 && rest[0] == '-' then
        match ParseClock(rest[1..])
        case None => None
        case Some((end, tail)) => if tail == [] then Some((start, end)) else None
      else None
  }

  /** The start of a label in minutes since midnight, or -1 if it does not read. */
  function StartMinute(slot: string): int {
    match ParseSlot(slot)
    case Some((start, _)) => start
    case None => -1
  }

  /** The end of a label in minutes since midnight, or -1 if it does not read. */
  function EndMinute(slot: string): int {
    match ParseSlot(slot)
    case Some((_, end)) => end
    case None => -1
  }

  /** Label `a` starts strictly before label `b`. */
  function StartsBefore(a: string, b: string): bool {
    StartMinute(a) < StartMinute(b)
  }

  /** A clock written by `Clock` reads back as its hour and minutes. */
  lemma ParseClockOf(hour: nat, minutes: string, rest: string)
    requires |minutes| == 2 && AllDigits(minutes)
    requires rest == [] || !IsDigit(rest[0])
    ensures ParseClock(Clock(hour, minutes) + rest) == Some((hour * 60 + ParseNat(minutes), rest))
  {
    var h := NatToString(hour);
    ClockPieces(h, minutes, rest);
    ParseNatToString(hour);
  }

  /** Where the pieces of `h:mm` followed by `rest` sit in the string. */
  lemma ClockPieces(h: string, minutes: string, rest: string)
    requires |h| >= 1 && AllDigits(h)
    requires |minutes| == 2 && AllDigits(minutes)
    requires rest == [] || !IsDigit(rest[0])
    ensures var s := h + ":" + minutes + rest;
            DigitRun(s) == |h| && |s| == |h| + 3 + |rest| && s[..|h|] == h && s[|h|] == ':'
            && s[|h| + 1..|h| + 3] == minutes && s[|h| + 3..] == rest
  {
    var t := [':'] + minutes + rest;
    assert h + ":" + minutes + rest == h + t;
    DigitRunOfNumeral(h, t);
  }

  /** A label `first-last` reads as the two clocks it is made of. */
  lemma ParseSlotOf(h1: nat, m1: string, h2: nat, m2: string)
    requires |m1| == 2 && AllDigits(m1) && |m2| == 2 && AllDigits(m2)
    ensures ParseSlot(Clock(h1, m1) + "-" + Clock(h2, m2))
            == Some((h1 * 60 + ParseNat(m1), h2 * 60 + ParseNat(m2)))
  {
    var last := Clock(h2, m2);
    ParseClockOf(h1, m1, "-" + last);
    assert Clock(h1, m1) + "-" + last == Clock(h1, m1) + ("-" + last);
    assert ("-" + last)[1..] == last;
    ParseClockOf(h2, m2, []);
    assert last + [] == last;
  }

  lemma MinuteNumerals()
    ensures ParseNat("00") == 0 && ParseNat("30") == 30
  {
  }

  /** The first half of an hour reads back as its minutes. */
  lemma FirstHalfTimes(hour: nat)
    ensures ParseSlot(Clock(hour, "00") + "-" + Clock(hour, "30")) == Some((hour * 60, hour * 60 + 30))
  {
    MinuteNumerals();
    ParseSlotOf(hour, "00", hour, "30");
  }

  /** The second half of an hour reads back as its minutes. */
  lemma SecondHalfTimes(hour: nat)
    ensures ParseSlot(Clock(hour, "30") + "-" + Clock(hour + 1, "00")) == Some((hour * 60 + 30, hour * 60 + 60))
  {
    MinuteNumerals();
    ParseSlotOf(hour, "30", hour + 1, "00");
  }

  /** Every label the grid can hold reads back as the half hour it names. */
  lemma SlotLabelTimes(hour: nat, second: bool)
    ensures !second ==> ParseSlot(SlotLabel(hour, second)) == Some((hour * 60, hour * 60 + 30))
    ensures second ==> ParseSlot(SlotLabel(hour, second)) == Some((hour * 60 + 30, hour * 60 + 60))
  {
    if second {
      SecondHalfTimes(hour);
    } else {
      FirstHalfTimes(hour);
    }
  }

  /** Entry `i` of the grid is the `i % 2`-th half of hour `9 + i / 2`. */
  lemma GridEntry(i: nat)
    requires i < 16
    ensures |Grid()| == 16 && Grid()[i] == SlotLabel(9 + i / 2, i % 2 == 1)
  {
  }

  /** The label at grid position `i` is the half hour starting `30 * i`
      minutes after 9:00. */
  lemma {:induction false} LabelTimes(i: nat, slot: string)
    requires slot == SlotLabel(9 + i / 2, i % 2 == 1)
    ensures ParseSlot(slot) == Some((540 + 30 * i, 570 + 30 * i))
  {
    SlotLabelTimes(9 + i / 2, i % 2 == 1);
    HalfHours(i);
  }

  /** The minute arithmetic of entry `i`: hour `9 + i / 2`, plus half an
      hour when `i` is odd. */
  lemma HalfHours(i: nat)
    ensures var hour := 9 + i / 2;
            if i % 2 == 1 then hour * 60 + 30 == 540 + 30 * i && hour * 60 + 60 == 570 + 30 * i
            else hour * 60 == 540 + 30 * i && hour * 60 + 30 == 570 + 30 * i
  {
    assert i == 2 * (i / 2) + i % 2;
  }

  /** Grid entry `i` is the half hour starting `30 * i` minutes after 9:00. */
  lemma {:induction false} GridTimes(i: nat)
    requires i < |Grid()|
    ensures ParseSlot(Grid()[i]) == Some((540 + 30 * i, 570 + 30 * i))
  {
    GridEntry(i);
    LabelTimes(i, Grid()[i]);
  }

  /** Labels spaced every half hour from 9:00 are half an hour long,
      contiguous, increasing and distinct. */
  lemma {:induction false} ShapeOfTimes(g: seq<string>)
    requires forall i :: 0 <= i < |g| ==> StartMinute(g[i]) == 540 + 30 * i && EndMinute(g[i]) == 570 + 30 * i
    ensures forall i :: 0 <= i < |g| ==> EndMinute(g[i]) == StartMinute(g[i]) + 30
    ensures forall i :: 0 < i < |g| ==> StartMinute(g[i]) == EndMinute(g[i - 1])
    ensures Seqs.Ordered(g, StartsBefore)
    ensures forall i, j :: 0 <= i < j < |g| ==> g[i] != g[j]
  {
    forall i, j | 0 <= i < j < |g| ensures g[i] != g[j] {
      assert StartMinute(g[i]) < StartMinute(g[j]);
    }
  }

  /** The grid: sixteen labels from "9:00-9:30" to "16:30-17:00", each
      half an hour long, each starting where the previous one ends, in
      strictly increasing order of time and so with no label twice. */
  lemma GridShape()
    ensures |Grid()| == 16
    ensures Grid()[0] == "9:00-9:30" && Grid()[15] == "16:30-17:00"
    ensures forall i :: 0 <= i < |Grid()| ==> EndMinute(Grid()[i]) == StartMinute(Grid()[i]) + 30
    ensures forall i :: 0 < i < |Grid()| ==> StartMinute(Grid()[i]) == EndMinute(Grid()[i - 1])
    ensures Seqs.Ordered(Grid(), StartsBefore)
    ensures forall i, j :: 0 <= i < j < |Grid()| ==> Grid()[i] != Grid()[j]
  {
    assert NatToString(9) == "9" && NatToString(16) == "16" && NatToString(17) == "17";
    forall i | 0 <= i < |Grid()|
      ensures StartMinute(Grid()[i]) == 540 + 30 * i && EndMinute(Grid()[i]) == 570 + 30 * i
    {
      GridTimes(i);
    }
    ShapeOfTimes(Grid());
  }
}
