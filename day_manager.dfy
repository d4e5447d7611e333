/**
 * The day editor: the fixed meal-plan table, the value each control shows for
 * a day whose field is missing, and which `updateDay` / `removeDay` call each
 * control makes.
 */
module DayManager {
  import opened Wrappers
  import Days

  /** One option of the select; `text` is the option's `label` (a reserved word in Dafny). */
  datatype MealPlanOption = MealPlanOption(value: string, text: string)

  /** `mealPlanOptions`, in the order the select lists them. */
  const MealPlanOptions: seq<MealPlanOption> := [
    MealPlanOption("none", "No Meals"),
    MealPlanOption("breakfast", "Breakfast Only"),
    MealPlanOption("breakfast_dinner", "Breakfast & Dinner"),
    MealPlanOption("all_meals", "All Meals (B+L+D)"),
    MealPlanOption("dinner", "Dinner Only")
  ]

  /** The label the table gives `value`, if the table has it. */
  function LabelIn(options: seq<MealPlanOption>, value: string): (r: Option<string>)
    ensures r.None? <==> forall i :: 0 <= i < |options| ==> options[i].value != value
    ensures r.Some? ==> exists i :: 0 <= i < |options| && options[i] == MealPlanOption(value, r.value)
  {
    if options == [] then None
    else if options[0].value == value then Some(options[0].text)
    else
      var r := LabelIn(options[1..], value);
      assert forall i :: 1 <= i < |options| ==> options[i] == options[1..][i - 1];
      r
  }

  function MealPlanLabel(value: string): Option<string>
  {
    LabelIn(MealPlanOptions, value)
  }

  /**
   * The table has five entries with five different values, so each value has
   * exactly one label; 'none' is 'No Meals'.
   */
  lemma MealPlanTable()
    ensures |MealPlanOptions| == 5
    ensures forall i, j :: 0 <= i < j < |MealPlanOptions| ==> MealPlanOptions[i].value != MealPlanOptions[j].value
    ensures forall i :: 0 <= i < |MealPlanOptions| ==> MealPlanLabel(MealPlanOptions[i].value) == Some(MealPlanOptions[i].text)
    ensures MealPlanLabel("none") == Some("No Meals")
  {
    var o := MealPlanOptions;
    assert o[0].value == "none" && o[1].value == "breakfast" && o[2].value == "breakfast_dinner";
    assert o[3].value == "all_meals" && o[4].value == "dinner";
    assert o[0].value[0] == 'n' && o[1].value[0] == 'b' && o[2].value[0] == 'b';
    assert o[3].value[0] == 'a' && o[4].value[0] == 'd';
    assert |o[1].value| != |o[2].value|;
  }

  /** What the controls of one day show. */
  datatype DayView = DayView(number: nat, header: string, date: Option<int>, activities: string, mealPlan: string)

  /** `day.mealPlan || 'none'`: a missing or empty meal plan shows as 'none'. */
  function ShownMealPlan(mealPlan: Option<string>): (shown: string)
    ensures shown != ""
    ensures mealPlan.Some? && mealPlan.value != "" ==> shown == mealPlan.value
  {
    if mealPlan.None? || mealPlan.value == "" then "none" else mealPlan.value
  }

  /** The controls of day `index`: numbered from 1, a missing header or date shown empty. */
  function ViewOf(day: Days.Day, index: nat): DayView
  {
    DayView(index + 1, day.header.GetOr(""), day.date, day.activities, ShownMealPlan(day.mealPlan))
  }

  function Views(days: seq<Days.Day>): (r: seq<DayView>)
    ensures |r| == |days|
  {
    seq(|days|, i requires 0 <= i < |days| => ViewOf(days[i], i))
  }

  /** A day the source never gave a header or meal plan shows '' and 'none'; day numbers start at 1. */
  lemma MissingFieldsShowDefaults(days: seq<Days.Day>, index: nat)
    requires index < |days| && days[index].header.None? && days[index].mealPlan.None?
    ensures Views(days)[index].number == index + 1
    ensures Views(days)[index].header == "" && Views(days)[index].mealPlan == "none"
  {
  }

  /** What the user did on one control of a day. */
  datatype Event =
    | HeaderTyped(text: string)
    | DatePicked(date: Option<int>)
    | ActivitiesTyped(text: string)
    | MealPlanSelected(value: string)
    | DeleteClicked

  /** The callback a control invokes. */
  datatype Action = UpdateDay(index: nat, edit: Days.DayEdit) | RemoveDay(index: nat)

  /** The call made by a control of day `index`: always with that index and the control's own field. */
  function Dispatch(index: nat, event: Event): (a: Action)
    ensures a.index == index
    ensures event.DeleteClicked? <==> a.RemoveDay?
  {
    match event
    case HeaderTyped(t) => UpdateDay(index, Days.SetHeader(t))
    case DatePicked(d) => UpdateDay(index, Days.SetDate(d))
    case ActivitiesTyped(t) => UpdateDay(index, Days.SetActivities(t))
    case MealPlanSelected(v) => UpdateDay(index, Days.SetMealPlan(v))
    case DeleteClicked => RemoveDay(index)
  }

  predicate ActionDefined(days: seq<Days.Day>, a: Action)
  {
    a.UpdateDay? ==> Days.EditDefined(days, a.index, a.edit)
  }

  /** The parent's `updateDay` or `removeDay` applied to the day list. */
  function Perform(days: seq<Days.Day>, a: Action): seq<Days.Day>
    requires ActionDefined(days, a)
  {
    match a
    case UpdateDay(i, e) => Days.Edited(days, i, e)
    case RemoveDay(i) => Days.Removed(days, i)
  }

  /**
   * What a control of day `index` is given is what it then shows, and a
   * control other than the date picker leaves every other day as it was.
   * The select only offers the table's values.
   */
  lemma ControlShowsWhatItSets(days: seq<Days.Day>, index: nat, event: Event)
    requires index < |days| && !event.DeleteClicked?
    requires ActionDefined(days, Dispatch(index, event))
    requires event.MealPlanSelected? ==> MealPlanLabel(event.value).Some?
    ensures var after := Perform(days, Dispatch(index, event));
      var v := Views(after)[index];
      |after| == |days|
      && (event.HeaderTyped? ==> v.header == event.text)
      && (event.DatePicked? ==> v.date == event.date)
      && (event.ActivitiesTyped? ==> v.activities == event.text)
      && (event.MealPlanSelected? ==> v.mealPlan == event.value)
      && (!event.DatePicked? ==> forall j :: 0 <= j < |days| && j != index ==> after[j] == days[j])
  {
    if event.MealPlanSelected? {
      var i :| 0 <= i < |MealPlanOptions| && MealPlanOptions[i] == MealPlanOption(event.value, MealPlanLabel(event.value).value);
      assert MealPlanOptions[i].value != "";
    }
  }

  /** The delete button of day `index` removes that day and no other. */
  lemma DeleteRemovesOwnDay(days: seq<Days.Day>, index: nat)
    requires index < |days|
    ensures Perform(days, Dispatch(index, DeleteClicked)) == days[..index] + days[index + 1..]
  {
  }
}
