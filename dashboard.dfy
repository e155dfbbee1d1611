/** The teacher's dashboard (Client/src/Components/Dashboard.tsx): the
    text and colour of an assignment's deadline, and the pairing of the
    assignment cards with their submission counts. A deadline is given as
    the number of milliseconds from now until it, or None when the
    assignment has none. */
module Dashboard {
  import opened Js
  import opened JsText

  const Hour: nat := 1000 * 60 * 60
  const Day: nat := 1000 * 60 * 60 * 24

  /** `getTimeRemaining` (Dashboard.tsx:133-146). */
  function TimeRemaining(deadline: Option<int>): string
  {
    if deadline.None? then "No deadline"
    else
      var diff := deadline.value;
      if diff <= 0 then "Overdue"
      else
        var days := diff / Day;
        if days > 0 then Countdown(days, " day")
        else
          var hours := (diff % Day) / Hour;
          Countdown(hours, " hour")
  }

  /** `${n} unit${n > 1 ? "s" : ""} left` */
  function Countdown(n: nat, unit: string): string
  {
    NatToString(n) + unit + (if n > 1 then "s" else "") + " left"
  }

  /** The count in front of a countdown text reads back with `parseInt`. */
  lemma CountdownReadsBack(n: nat, unit: string)
    requires |unit| > 0 && unit[0] == ' '
    ensures ParseInt(Countdown(n, unit)) == Some(n)
  {
    var rest := unit + (if n > 1 then "s" else "") + " left";
    assert Countdown(n, unit) == NatToString(n) + rest;
    ParseIntOfNatToString(n, rest);
  }

  /** The unit texts, singular and plural. */
  lemma CountdownUnits(n: nat)
    ensures Countdown(n, " day") == NatToString(n) + (if n > 1 then " days left" else " day left")
    ensures Countdown(n, " hour") == NatToString(n) + (if n > 1 then " hours left" else " hour left")
  {
    if n > 1 {
      assert " day" + "s" + " left" == " days left";
      assert " hour" + "s" + " left" == " hours left";
    } else {
      assert " day" + "" + " left" == " day left";
      assert " hour" + "" + " left" == " hour left";
    }
  }

  /** `Math.floor(diff / day)` for a positive `diff` is the number of whole
      days in it. */
  lemma WholeDays(diff: int)
    requires diff > 0
    ensures diff / Day * Day <= diff < (diff / Day + 1) * Day
    ensures diff / Day > 0 <==> diff >= Day
    ensures diff / Day >= 2 <==> diff >= 2 * Day
  {
  }

  /** Under a day, the hour count is the number of whole hours, below 24. */
  lemma WholeHours(diff: int)
    requires 0 < diff < Day
    ensures diff % Day == diff
    ensures diff / Hour * Hour <= diff < (diff / Hour + 1) * Hour
    ensures diff / Hour < 24
  {
  }

  /** The number a remaining-time text starts with, read back with
      `parseInt`, is the whole days left when there is at least one, and
      otherwise the whole hours left, which is then below 24; the unit is
      plural exactly when that number exceeds 1. */
  lemma TimeRemainingCounts(diff: int)
    requires diff > 0
    ensures var text := TimeRemaining(Some(diff));
            var n := ParseInt(text);
            && n.Some? && n.value >= 0
            && (diff >= Day ==>
                  (&& n.value * Day <= diff < (n.value + 1) * Day && n.value >= 1
                   && text == NatToString(n.value) + (if n.value > 1 then " days left" else " day left")))
            && (diff < Day ==>
                  (&& n.value * Hour <= diff < (n.value + 1) * Hour && n.value < 24
                   && text == NatToString(n.value) + (if n.value > 1 then " hours left" else " hour left")))
  {
    var text := TimeRemaining(Some(diff));
    if diff >= Day {
      DaysLeft(diff);
      var days := diff / Day;
      assert ParseInt(text) == Some(days);
      assert text == NatToString(days) + (if days > 1 then " days left" else " day left");
    } else {
      HoursLeft(diff);
      var hours := diff / Hour;
      assert ParseInt(text) == Some(hours);
      assert text == NatToString(hours) + (if hours > 1 then " hours left" else " hour left");
    }
  }

  lemma DaysLeft(diff: int)
    requires diff >= Day
    ensures var days := diff / Day;
            && days >= 1 && days * Day <= diff < (days + 1) * Day
            && TimeRemaining(Some(diff)) == Countdown(days, " day")
            && ParseInt(TimeRemaining(Some(diff))) == Some(days)
            && Countdown(days, " day") == NatToString(days) + (if days > 1 then " days left" else " day left")
  {
    var days := diff / Day;
    WholeDays(diff);
    assert days >= 1 && days * Day <= diff < (days + 1) * Day;
    assert TimeRemaining(Some(diff)) == Countdown(days, " day");
    CountdownReadsBack(days, " day");
    CountdownUnits(days);
  }

  lemma HoursLeft(diff: int)
    requires 0 < diff < Day
    ensures var hours := diff / Hour;
            && hours < 24 && hours * Hour <= diff < (hours + 1) * Hour
            && TimeRemaining(Some(diff)) == Countdown(hours, " hour")
            && ParseInt(TimeRemaining(Some(diff))) == Some(hours)
            && Countdown(hours, " hour") == NatToString(hours) + (if hours > 1 then " hours left" else " hour left")
  {
    var hours := diff / Hour;
    WholeDays(diff);
    WholeHours(diff);
    CountdownReadsBack(hours, " hour");
    CountdownUnits(hours);
  }

  /** A remaining-time text for a future deadline starts with a digit. */
  lemma TimeRemainingStartsWithDigit(diff: int)
    requires diff > 0
    ensures |TimeRemaining(Some(diff))| > 0 && IsDigit(TimeRemaining(Some(diff))[0])
  {
    var days := diff / Day;
    if days == 0 {
      var hours := (diff % Day) / Hour;
      assert TimeRemaining(Some(diff))[0] == NatToString(hours)[0];
    } else {
      assert TimeRemaining(Some(diff))[0] == NatToString(days)[0];
    }
  }

  datatype StatusColor = Gray | Red | Yellow | Green

  /** `getStatusColor` (Dashboard.tsx:148-157). */
  function StatusColorOf(deadline: Option<int>): StatusColor
  {
    if deadline.None? then Gray
    else if deadline.value <= 0 then Red
    else if deadline.value < 2 * Day then Yellow
    else Green
  }

  /** The colour agrees with the text beside it: red exactly for "Overdue",
      gray exactly for "No deadline", green only when at least two days
      are left and yellow only when one day or some hours are. */
  lemma ColourAgreesWithText(deadline: Option<int>)
    ensures StatusColorOf(deadline) == Red <==> TimeRemaining(deadline) == "Overdue"
    ensures StatusColorOf(deadline) == Gray <==> TimeRemaining(deadline) == "No deadline"
    ensures StatusColorOf(deadline) == Green ==>
              ParseInt(TimeRemaining(deadline)).Some? && ParseInt(TimeRemaining(deadline)).value >= 2
    ensures StatusColorOf(deadline) == Yellow ==>
              ParseInt(TimeRemaining(deadline)).Some? && ParseInt(TimeRemaining(deadline)).value <= 23
  {
    if deadline.Some? && deadline.value > 0 {
      var diff := deadline.value;
      TimeRemainingCounts(diff);
      WholeDays(diff);
      TimeRemainingStartsWithDigit(diff);
      assert !IsDigit("Overdue"[0]) && !IsDigit("No deadline"[0]);
    }
  }

  /** The effect of Dashboard.tsx:122-131 and Submissions.tsx:45-57: the
      items and the counts are paired up only when both are non-empty and
      equally long; otherwise the previous pairing stays. */
  function Combine<T>(items: seq<T>, counts: seq<int>, previous: seq<(T, int)>): seq<(T, int)>
  {
    if |items| > 0 && |counts| > 0 && |items| == |counts| then
      seq(|items|, i requires 0 <= i < |items| => (items[i], counts[i]))
    else previous
  }

  /** Unzipping the pairing gives back the items and the counts. */
  lemma CombineUnzips<T>(items: seq<T>, counts: seq<int>, previous: seq<(T, int)>)
    ensures var r := Combine(items, counts, previous);
            && (|items| > 0 && |items| == |counts| ==>
                  && |r| == |items|
                  && (seq(|r|, i requires 0 <= i < |r| => r[i].0)) == items
                  && (seq(|r|, i requires 0 <= i < |r| => r[i].1)) == counts)
            && (!(|items| > 0 && |counts| > 0 && |items| == |counts|) ==> r == previous)
  {
  }
}
