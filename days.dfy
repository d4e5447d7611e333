/**
 * The day sequence of an itinerary: `addDay`, `removeDay` and `updateDay`
 * with its date cascade. A date is a whole day number (the day after `d` is
 * `d + 1`); `None` stands for the empty or missing date string.
 */
module Days {
  import opened Wrappers

  /** One day of the plan. A field the source never set is `None`. */
  datatype Day = Day(date: Option<int>, header: Option<string>, activities: string, mealPlan: Option<string>)

  /** `updateDay(index, field, value)`: which field, and the value the control passes. */
  datatype DayEdit =
    | SetHeader(header: string)
    | SetDate(date: Option<int>)
    | SetActivities(activities: string)
    | SetMealPlan(mealPlan: string)

  /** The session starts with one day, with no date and no activities. */
  const FirstDay := Day(None, None, "", None)

  /** The day `addDay` appends after `last`: the next date when `last` has one. */
  function DayAfter(last: Day): (d: Day)
    ensures d.date == (if last.date.Some? then Some(last.date.value + 1) else None)
    ensures d.activities == "" && d.header.None? && d.mealPlan.None?
  {
    Day(if last.date.Some? then Some(last.date.value + 1) else None, None, "", None)
  }

  /**
   * `addDay`: one new day at the end, every earlier day unchanged. The source
   * reads the last day's date, so the list must not be empty.
   */
  function Appended(days: seq<Day>): (r: seq<Day>)
    requires days != []
    ensures |r| == |days| + 1 && r[..|days|] == days
    ensures r[|days|] == DayAfter(days[|days| - 1])
  {
    days + [DayAfter(days[|days| - 1])]
  }

  /**
   * `removeDay(index)`: keeps every day whose position is not `index`. This is
   * exactly the day at `index` taken out, or no change when `index` is out of range.
   */
  function Removed(days: seq<Day>, index: int): (r: seq<Day>)
    ensures 0 <= index < |days| ==> r == days[..index] + days[index + 1..]
    ensures !(0 <= index < |days|) ==> r == days
  {
    if days == [] then []
    else
      assert days == [days[0]] + days[1..];
      (if index == 0 then [] else [days[0]]) + Removed(days[1..], index - 1)
  }

  /** The edit applied to the day it names. */
  function Applied(day: Day, edit: DayEdit): Day
  {
    match edit
    case SetHeader(h) => day.(header := Some(h))
    case SetDate(d) => day.(date := d)
    case SetActivities(a) => day.(activities := a)
    case SetMealPlan(m) => day.(mealPlan := Some(m))
  }

  /**
   * Clearing the date of a day that has later days makes the source shift an
   * invalid date and throw; every other edit is defined.
   */
  predicate EditDefined(days: seq<Day>, index: int, edit: DayEdit)
  {
    edit == SetDate(None) ==> index >= |days| - 1
  }

  /**
   * `updateDay(index, field, value)`: the field is set on the day at `index`;
   * a date edit also puts every later day `j` on `value + (j - index)`.
   */
  function Edited(days: seq<Day>, index: int, edit: DayEdit): (r: seq<Day>)
    requires EditDefined(days, index, edit)
    ensures |r| == |days|
  {
    seq(|days|, j requires 0 <= j < |days| =>
      if j == index then Applied(days[j], edit)
      else if edit.SetDate? && j > index then days[j].(date := Some(edit.date.value + (j - index)))
      else days[j])
  }

  /** Removing the day that was just added gives back the days before the add. */
  lemma RemoveUndoesAppend(days: seq<Day>)
    requires days != []
    ensures Removed(Appended(days), |days|) == days
  {
    var r := Appended(days);
    assert r[..|days|] == days;
    assert r[|days| + 1..] == [];
  }

  /**
   * An edit of any field but the date, or a date edit of the last day (which
   * has no later days to move), touches only the day it names, and sets that field.
   */
  lemma EditTouchesOnlyItsDay(days: seq<Day>, index: int, edit: DayEdit)
    requires EditDefined(days, index, edit)
    requires !edit.SetDate? || index >= |days| - 1
    ensures var r := Edited(days, index, edit);
      (forall j :: 0 <= j < |days| && j != index ==> r[j] == days[j])
      && (0 <= index < |days| ==> r[index] == Applied(days[index], edit))
  {
  }

  /**
   * A date edit: days before `index` are untouched, the edited day takes the
   * value, and every later day moves to consecutive dates after it, keeping
   * its other fields; earlier spacing between days is not preserved.
   */
  lemma DateEditCascades(days: seq<Day>, index: int, value: int)
    requires 0 <= index < |days|
    ensures var r := Edited(days, index, SetDate(Some(value)));
      (forall j :: 0 <= j < index ==> r[j] == days[j])
      && (forall j :: index <= j < |days| ==> r[j].date == Some(value + (j - index)))
      && (forall j :: index <= j < |days| ==> r[j] == days[j].(date := r[j].date))
  {
  }

  /** After a date edit, the days from the edited one on have consecutive dates. */
  lemma DateEditConsecutive(days: seq<Day>, index: int, value: int)
    requires 0 <= index < |days|
    ensures var r := Edited(days, index, SetDate(Some(value)));
      forall j :: index <= j < |days| - 1 ==> r[j].date.Some? && r[j + 1].date == Some(r[j].date.value + 1)
  {
    DateEditCascades(days, index, value);
  }

  /** An edit at a position past the end changes nothing. */
  lemma EditOutOfRange(days: seq<Day>, index: int, edit: DayEdit)
    requires index >= |days|
    ensures Edited(days, index, edit) == days
  {
  }

  /**
   * Three dated days: moving day 0 to `x` gives `x, x+1, x+2`; then moving
   * day 1 to `y` gives day 2 the date `y + 1` and leaves day 0 alone.
   */
  lemma CascadeExample(d0: int, d1: int, d2: int, x: int, y: int)
    ensures var days := [Day(Some(d0), None, "", None), Day(Some(d1), None, "", None), Day(Some(d2), None, "", None)];
      var r1 := Edited(days, 0, SetDate(Some(x)));
      var r2 := Edited(r1, 1, SetDate(Some(y)));
      r1[0].date == Some(x) && r1[1].date == Some(x + 1) && r1[2].date == Some(x + 2)
      && r2[0].date == Some(x) && r2[1].date == Some(y) && r2[2].date == Some(y + 1)
  {
  }

  /**
   * From the first day without a date, adding a day gives an undated day;
   * dating that day `d` and adding again gives a third day dated `d + 1`.
   */
  lemma AddDayExample(d: int)
    ensures var r1 := Appended([FirstDay]);
      var r2 := Appended(Edited(r1, 1, SetDate(Some(d))));
      r1[1].date.None? && |r2| == 3 && r2[1].date == Some(d) && r2[2].date == Some(d + 1)
  {
  }
}
