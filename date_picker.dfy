/** src/components/DatePicker.tsx: the due-date label, the overdue flag and the
    open/selected state of the picker. Dates are whole day numbers; the time of
    day is dropped as `setHours(0, 0, 0, 0)` does. */
module DatePicker {

  import opened Wrappers
  import opened Text
  import opened Seqs

  /** A JavaScript `Date`: a calendar day, or the invalid date that
      `new Date(text)` yields for text it cannot read. */
  datatype DateValue = Valid(day: int) | Invalid

  const NoDueDate := "No due date"

  /** The relative part of `formatDisplayDate`, for a due day `diff` days from
      today and no more than a week ahead. A past day is announced as overdue by
      its distance in days (singular only for one day); today and tomorrow have
      labels of their own. */
  function RelativeLabel(diff: int): (r: string)
    requires diff <= 7
    ensures "Overdue" <= r <==> diff < 0
    ensures diff < 0 ==> "Overdue by " + NatToString(-diff) <= r && (r[|r| - 1] == 's' <==> diff != -1)
    ensures r == "Due today" <==> diff == 0
    ensures r == "Due tomorrow" <==> diff == 1
    ensures diff >= 2 ==> "Due in " + NatToString(diff) <= r
    ensures diff < 0 ==> r == "Overdue by " + NatToString(-diff) + (if diff == -1 then " day" else " days")
    ensures diff >= 2 ==> r == "Due in " + NatToString(diff) + " days"
  {
    if diff < 0 then
      var n := -diff;
      var digits := NatToString(n);
      var suffix: string := if n != 1 then " days" else " day";
      var r := "Overdue by " + (digits + suffix);
      AppendAssoc("Overdue by ", digits, suffix);
      assert r[..|"Overdue by " + digits|] == "Overdue by " + digits;
      assert r[..7] == "Overdue";
      assert r[|r| - 1] == suffix[|suffix| - 1];
      r
    else if diff == 0 then
      var r := "Due today";
      assert r[0] == 'D';
      r
    else if diff == 1 then
      var r := "Due tomorrow";
      assert r[0] == 'D';
      r
    else
      var digits := NatToString(diff);
      var r := "Due in " + (digits + " days");
      AppendAssoc("Due in ", digits, " days");
      assert r[..|"Due in " + digits|] == "Due in " + digits;
      assert r[0] == 'D' && r[4] == 'i';
      r
  }

  /** `formatDisplayDate(date)`; `calendarText` stands for the date's
      `toLocaleDateString('en-US', …)`, used beyond a week and for an invalid date.
      A date up to a week ahead, or in the past, gets its relative label. */
  function FormatDisplayDate(date: Option<DateValue>, today: int, calendarText: string): (r: string)
    ensures date.None? ==> r == NoDueDate
    ensures date.Some? && calendarText != NoDueDate ==> r != NoDueDate
    ensures date.Some? && date.value.Valid? && date.value.day - today <= 7 ==> r == RelativeLabel(date.value.day - today)
    ensures date.Some? && (date.value.Invalid? || date.value.day - today > 7) ==> r == calendarText
  {
    match date
    case None => NoDueDate
    case Some(Invalid) => calendarText
    case Some(Valid(day)) =>
      var diff := day - today;
      if diff <= 7 then
        var r := RelativeLabel(diff);
        assert r != NoDueDate by {
          if diff >= 0 && diff != 0 && diff != 1 {
            assert r[4] == 'i' && NoDueDate[4] == 'u';
          } else if diff < 0 {
            assert r[0] == 'O' && NoDueDate[0] == 'N';
          }
        }
        r
      else calendarText
  }

  /** `dueDate && dueDate < today` (an invalid date compares false). It agrees
      with the label: a date is overdue exactly when it gets a relative label
      that says so. */
  predicate IsOverdue(date: Option<DateValue>, today: int)
    ensures IsOverdue(date, today) <==>
      date.Some? && date.value.Valid? && date.value.day - today <= 7 && "Overdue" <= RelativeLabel(date.value.day - today)
  {
    date.Some? && date.value.Valid? && date.value.day < today
  }

  /** The characters that tell the kinds of relative label apart. */
  lemma RelativeLabelShape(diff: int)
    requires diff <= 7
    ensures var r := RelativeLabel(diff);
      |r| >= 7 && (r[0] == 'O' <==> diff < 0) && (diff < 0 ==> "Overdue" <= r) &&
      (diff >= 0 ==> (r[4] == 't' <==> diff <= 1)) &&
      (0 <= diff <= 1 ==> (r[6] == 'd' <==> diff == 0))
  {
    if diff < 0 {
      var r := RelativeLabel(diff);
      var x := NatToString(-diff) + (if -diff != 1 then " days" else " day");
      assert r == "Overdue by " + x;
      assert r[..7] == "Overdue";
    }
  }

  /** Within a week ahead, and for any day in the past, the label names the day
      unambiguously: two different distances never get the same label. */
  lemma RelativeLabelInjective(d1: int, d2: int)
    requires d1 <= 7 && d2 <= 7
    requires RelativeLabel(d1) == RelativeLabel(d2)
    ensures d1 == d2
  {
    RelativeLabelShape(d1);
    RelativeLabelShape(d2);
    var s := RelativeLabel(d1);
    if d1 < 0 {
      var sfx1: string := if d1 == -1 then " day" else " days";
      var sfx2: string := if d2 == -1 then " day" else " days";
      var x1 := NatToString(-d1) + sfx1;
      var x2 := NatToString(-d2) + sfx2;
      DropPrefix("Overdue by ", x1);
      DropPrefix("Overdue by ", x2);
      assert x1 == x2;
      DigitRunUnique(NatToString(-d1), sfx1, NatToString(-d2), sfx2);
      NatToStringInjective(-d1, -d2);
    } else if d1 >= 2 {
      var x1 := NatToString(d1) + " days";
      var x2 := NatToString(d2) + " days";
      DropPrefix("Due in ", x1);
      DropPrefix("Due in ", x2);
      assert x1 == x2;
      DigitRunUnique(NatToString(d1), " days", NatToString(d2), " days");
      NatToStringInjective(d1, d2);
    }
  }

  /** The red styling and the label agree: the date is overdue exactly when the
      label starts with "Overdue" (as long as the calendar text does not). This
      holds of whole day numbers; with real clocks a daylight-saving day or a
      date parsed as UTC can make `Math.ceil` give 0 for the day before. */
  lemma OverdueIffLabel(date: Option<DateValue>, today: int, calendarText: string)
    requires !("Overdue" <= calendarText)
    ensures IsOverdue(date, today) <==> "Overdue" <= FormatDisplayDate(date, today, calendarText)
  {
    var r := FormatDisplayDate(date, today, calendarText);
    if date.Some? && date.value.Valid? && date.value.day - today <= 7 {
      RelativeLabelShape(date.value.day - today);
      if !IsOverdue(date, today) {
        assert r[0] != "Overdue"[0];
      }
    } else if date.None? {
      assert r[0] != "Overdue"[0];
    }
  }

  /** The picker's state: whether the popup is open and the selected date. */
  class Picker {
    var isOpen: bool
    var selectedDate: Option<DateValue>

    /** `useState(value ? new Date(value) : null)`; `dateOf` stands for `new Date`. */
    constructor(value: Option<string>, dateOf: string -> DateValue)
      ensures !isOpen
      ensures selectedDate == (if value.Some? && value.value != "" then Some(dateOf(value.value)) else None)
    {
      isOpen := false;
      selectedDate := if value.Some? && value.value != "" then Some(dateOf(value.value)) else None;
    }

    /** The label the picker's button shows for the selected date. */
    function Label(today: int, calendarText: string): (r: string)
      reads this
      ensures selectedDate.None? ==> r == NoDueDate
      ensures selectedDate.Some? && calendarText != NoDueDate ==> r != NoDueDate
      ensures IsOverdue(selectedDate, today) ==> "Overdue" <= r
    {
      FormatDisplayDate(selectedDate, today, calendarText)
    }

    /** `handleDateChange`: the date input's value is empty (`None`) or a calendar
        day. Returns the argument passed to `onChange`; `isoOf` stands for
        `toISOString`. The picker closes either way. */
    method HandleDateChange(inputValue: Option<int>, isoOf: int -> string) returns (notified: Option<string>)
      modifies this
      ensures inputValue.None? ==> selectedDate == None && notified == None
      ensures inputValue.Some? ==> selectedDate == Some(Valid(inputValue.value)) && notified == Some(isoOf(inputValue.value))
      ensures !isOpen
    {
      if inputValue.Some? {
        selectedDate := Some(Valid(inputValue.value));
        notified := Some(isoOf(inputValue.value));
      } else {
        selectedDate := None;
        notified := None;
      }
      isOpen := false;
    }

    /** `handleClear`: no date, `onChange(undefined)`, closed. */
    method HandleClear() returns (notified: Option<string>)
      modifies this
      ensures selectedDate == None && notified == None && !isOpen
    {
      selectedDate := None;
      notified := None;
      isOpen := false;
    }

    /** The button's `onClick`. */
    method Toggle()
      modifies this
      ensures isOpen == !old(isOpen) && selectedDate == old(selectedDate)
    {
      isOpen := !isOpen;
    }

    /** The keydown listener, registered only while the picker is open. */
    method HandleEscape(key: string)
      modifies this
      ensures isOpen == (old(isOpen) && key != "Escape")
      ensures selectedDate == old(selectedDate)
    {
      if isOpen && key == "Escape" {
        isOpen := false;
      }
    }
  }
}
