/**
 * What `generatePrintableItinerary` puts in the printable document: the
 * content, not the markup. Dates stay day numbers (the long date format is
 * presentation) and amounts are in hundredths of a rupee.
 */
module Document {
  import opened Wrappers
  import Days
  import Checklist
  import Pricing

  /** The section of one day: its number, its date if it has one, and its activities. */
  datatype DaySection = DaySection(number: nat, date: Option<int>, activities: string)

  /** One line of the financial details: count × cost per head = subtotal. */
  datatype TierLine = TierLine(count: nat, costPerHead: nat, subtotal: nat)

  datatype Printable = Printable(
    title: string,
    preparedFor: Option<string>,
    days: seq<DaySection>,
    inclusions: seq<string>,
    exclusions: seq<string>,
    adults: TierLine,
    children: TierLine,
    infants: TierLine,
    packageAmount: nat,
    gstHundredths: Option<nat>,
    totalHundredths: nat)

  const NoActivities := "No activities planned"

  const UntitledJourney := "Your Journey"

  function Section(day: Days.Day, index: nat): DaySection
  {
    DaySection(index + 1, day.date, if day.activities == "" then NoActivities else day.activities)
  }

  function LineOf(t: Pricing.Tier): TierLine
  {
    TierLine(t.count, t.costPerHead, Pricing.Subtotal(t))
  }

  /** The content of the printable, from the session's state. */
  function Assemble(
    clientName: string,
    days: seq<Days.Day>,
    participants: Pricing.Participants,
    packageAmount: nat,
    includeGst: bool,
    inclusions: seq<Checklist.Item>,
    exclusions: seq<Checklist.Item>): (d: Printable)
    ensures |d.days| == |days|
  {
    Printable(
      if clientName == "" then UntitledJourney else clientName,
      if clientName == "" then None else Some(clientName),
      seq(|days|, i requires 0 <= i < |days| => Section(days[i], i)),
      Checklist.CheckedTexts(inclusions),
      Checklist.CheckedTexts(exclusions),
      LineOf(participants.adults),
      LineOf(participants.children),
      LineOf(participants.infants),
      packageAmount,
      if includeGst then Some(Pricing.GstHundredths(packageAmount, true)) else None,
      Pricing.TotalHundredths(packageAmount, includeGst))
  }

  /**
   * Day `i` is printed as day `i + 1` with its own date; its activities are
   * its own text, or the fallback when that text is empty, so no printed day
   * is blank.
   */
  lemma DaySectionsNumberedWithFallback(
    clientName: string, days: seq<Days.Day>, participants: Pricing.Participants,
    packageAmount: nat, includeGst: bool, inclusions: seq<Checklist.Item>, exclusions: seq<Checklist.Item>)
    ensures var d := Assemble(clientName, days, participants, packageAmount, includeGst, inclusions, exclusions);
      forall i :: 0 <= i < |days| ==>
        d.days[i].number == i + 1 && d.days[i].date == days[i].date
        && d.days[i].activities != ""
        && (days[i].activities != "" ==> d.days[i].activities == days[i].activities)
        && (days[i].activities == "" ==> d.days[i].activities == NoActivities)
  {
    var d := Assemble(clientName, days, participants, packageAmount, includeGst, inclusions, exclusions);
    forall i | 0 <= i < |days|
      ensures d.days[i].activities != ""
      ensures days[i].activities == "" ==> d.days[i].activities == NoActivities
    {
      assert d.days[i] == Section(days[i], i);
      assert |NoActivities| > 0;
    }
  }

  /** A text is printed under Inclusions exactly when a checked inclusion carries it (likewise Exclusions). */
  lemma PrintsCheckedOnly(
    clientName: string, days: seq<Days.Day>, participants: Pricing.Participants,
    packageAmount: nat, includeGst: bool, inclusions: seq<Checklist.Item>, exclusions: seq<Checklist.Item>,
    x: string)
    ensures var d := Assemble(clientName, days, participants, packageAmount, includeGst, inclusions, exclusions);
      (x in d.inclusions <==> exists i :: 0 <= i < |inclusions| && inclusions[i].checked && inclusions[i].text == x)
      && (x in d.exclusions <==> exists i :: 0 <= i < |exclusions| && exclusions[i].checked && exclusions[i].text == x)
  {
    Checklist.CheckedMembership(inclusions, x);
    Checklist.CheckedMembership(exclusions, x);
  }

  /**
   * The printed tier subtotals add up to the automatic total; the GST line is
   * there exactly when GST is on, and the total is the package amount plus it.
   */
  lemma FinancialsAddUp(
    clientName: string, days: seq<Days.Day>, participants: Pricing.Participants,
    packageAmount: nat, includeGst: bool, inclusions: seq<Checklist.Item>, exclusions: seq<Checklist.Item>)
    ensures var d := Assemble(clientName, days, participants, packageAmount, includeGst, inclusions, exclusions);
      d.adults.subtotal + d.children.subtotal + d.infants.subtotal == Pricing.AutoTotal(participants)
      && (d.gstHundredths.Some? <==> includeGst)
      && d.totalHundredths == 100 * d.packageAmount + d.gstHundredths.GetOr(0)
  {
  }

  /** The client's name titles the document, and the "prepared for" line appears only with a name. */
  lemma TitleFallsBack(
    clientName: string, days: seq<Days.Day>, participants: Pricing.Participants,
    packageAmount: nat, includeGst: bool, inclusions: seq<Checklist.Item>, exclusions: seq<Checklist.Item>)
    ensures var d := Assemble(clientName, days, participants, packageAmount, includeGst, inclusions, exclusions);
      d.title != "" && (d.preparedFor.Some? <==> clientName != "")
      && (clientName != "" ==> d.title == clientName && d.preparedFor == Some(clientName))
  {
  }
}
