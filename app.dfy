/**
 * The editing session of the itinerary builder: the state `App` keeps with
 * `useState` and the handlers that replace it. Each handler is a method whose
 * postcondition gives the whole new state in terms of the old one; the
 * session invariant is that, with the override off, the package amount is
 * the automatic total of the tiers.
 */
module App {
  import opened Wrappers
  import Text
  import Pricing
  import Days
  import Checklist
  import Document

  /** All fields of a session, as one value, for stating what a handler changes. */
  datatype State = State(
    days: seq<Days.Day>,
    packageAmount: nat,
    includeGst: bool,
    manualPackageAmount: string,
    clientName: string,
    participants: Pricing.Participants,
    isManualTotal: bool,
    inclusions: seq<Checklist.Item>,
    exclusions: seq<Checklist.Item>,
    newInclusion: string,
    newExclusion: string)

  class Session {
    var days: seq<Days.Day>
    var packageAmount: nat
    var includeGst: bool
    var manualPackageAmount: string
    var clientName: string
    var participants: Pricing.Participants
    var isManualTotal: bool
    var inclusions: seq<Checklist.Item>
    var exclusions: seq<Checklist.Item>
    var newInclusion: string
    var newExclusion: string

    ghost function Current(): State
      reads this
    {
      State(days, packageAmount, includeGst, manualPackageAmount, clientName, participants,
            isManualTotal, inclusions, exclusions, newInclusion, newExclusion)
    }

    /** With the override off, the package amount is the automatic total. */
    ghost predicate Valid()
      reads this
    {
      !isManualTotal ==> packageAmount == Pricing.AutoTotal(participants)
    }

    /**
     * The state the app starts in; the checklists come from `loadSavedItems`
     * with the custom texts saved in storage.
     */
    constructor (savedInclusions: seq<string>, savedExclusions: seq<string>)
      ensures Valid()
      ensures Current() == State(
        [Days.FirstDay], 0, false, "", "", Pricing.NoParticipants, false,
        Checklist.Loaded(Checklist.DefaultInclusions, savedInclusions),
        Checklist.Loaded(Checklist.DefaultExclusions, savedExclusions), "", "")
    {
      days := [Days.FirstDay];
      packageAmount := 0;
      includeGst := false;
      manualPackageAmount := "";
      clientName := "";
      participants := Pricing.NoParticipants;
      isManualTotal := false;
      inclusions := Checklist.Loaded(Checklist.DefaultInclusions, savedInclusions);
      exclusions := Checklist.Loaded(Checklist.DefaultExclusions, savedExclusions);
      newInclusion := "";
      newExclusion := "";
    }

    /**
     * `calculateAutoTotal`, on the session's current tiers: in a valid session
     * with the override off it is the package amount shown.
     */
    function CalculateAutoTotal(): (total: nat)
      reads this
      ensures Valid() && !isManualTotal ==> total == packageAmount
    {
      Pricing.AutoTotal(participants)
    }

    /** `gstAmount`, derived on every read, in hundredths of a rupee. */
    function GstAmount(): (g: nat)
      reads this
      ensures !includeGst ==> g == 0
      ensures includeGst ==> 100 * g == 18 * (100 * packageAmount)
    {
      Pricing.GstHundredths(packageAmount, includeGst)
    }

    /** `totalAmount = packageAmount + gstAmount`, in hundredths of a rupee. */
    function TotalAmount(): (t: nat)
      reads this
      ensures t == 100 * packageAmount + GstAmount()
      ensures t >= 100 * packageAmount
    {
      Pricing.TotalHundredths(packageAmount, includeGst)
    }

    /**
     * `updateParticipants`: the named field of the named tier takes the input's
     * value, and with the override off the package amount follows the tiers.
     * Its one caller passes only accepted numeric input.
     */
    method UpdateParticipants(category: Pricing.Category, field: Pricing.TierField, value: string)
      requires Valid() && Text.IsNumericInput(value)
      modifies this
      ensures Valid()
      ensures participants == Pricing.WithField(old(participants), category, field, Text.DecimalValue(value))
      ensures Current() == old(Current()).(
        participants := participants,
        packageAmount := if old(isManualTotal) then old(packageAmount) else Pricing.AutoTotal(participants))
    {
      participants := Pricing.WithField(participants, category, field, Text.DecimalValue(value));
      if !isManualTotal {
        packageAmount := Pricing.AutoTotal(participants);
      }
    }

    /** `handleNumberInput`: input that is not digits only changes nothing. */
    method HandleNumberInput(category: Pricing.Category, field: Pricing.TierField, value: string)
      requires Valid()
      modifies this
      ensures Valid()
      ensures !Text.IsNumericInput(value) ==> Current() == old(Current())
      ensures Text.IsNumericInput(value) ==>
        participants == Pricing.WithField(old(participants), category, field, Text.DecimalValue(value))
        && Current() == old(Current()).(
          participants := participants,
          packageAmount := if old(isManualTotal) then old(packageAmount) else Pricing.AutoTotal(participants))
    {
      if Text.IsNumericInput(value) {
        UpdateParticipants(category, field, value);
      }
    }

    /**
     * The override checkbox: unchecking puts the package amount back on the
     * automatic total; checking keeps the amount. The manual text is kept either way.
     */
    method SetManualOverride(checked: bool)
      requires Valid()
      modifies this
      ensures Valid()
      ensures Current() == old(Current()).(
        isManualTotal := checked,
        packageAmount := if checked then old(packageAmount) else Pricing.AutoTotal(old(participants)))
    {
      isManualTotal := checked;
      if !checked {
        packageAmount := CalculateAutoTotal();
      }
    }

    /**
     * The manual amount field, which is enabled only while the override is on:
     * an accepted entry is kept as typed and becomes the package amount (0 when
     * empty); any other entry is ignored.
     */
    method SetManualAmount(value: string)
      requires Valid() && isManualTotal
      modifies this
      ensures Valid()
      ensures !Text.IsNumericInput(value) ==> Current() == old(Current())
      ensures Text.IsNumericInput(value) ==> Current() == old(Current()).(
        manualPackageAmount := value,
        packageAmount := if value == "" then 0 else Text.DecimalValue(value))
    {
      if Text.IsNumericInput(value) {
        manualPackageAmount := value;
        packageAmount := if value == "" then 0 else Text.DecimalValue(value);
      }
    }

    /** The GST checkbox: only the flag changes, never the package amount. */
    method SetIncludeGst(checked: bool)
      requires Valid()
      modifies this
      ensures Valid()
      ensures Current() == old(Current()).(includeGst := checked)
    {
      includeGst := checked;
    }

    method SetClientName(name: string)
      requires Valid()
      modifies this
      ensures Valid()
      ensures Current() == old(Current()).(clientName := name)
    {
      clientName := name;
    }

    /** `addDay`; the source reads the last day, so there must be one. */
    method AddDay()
      requires Valid() && days != []
      modifies this
      ensures Valid()
      ensures Current() == old(Current()).(days := Days.Appended(old(days)))
    {
      days := Days.Appended(days);
    }

    /** `removeDay(index)`. */
    method RemoveDay(index: int)
      requires Valid()
      modifies this
      ensures Valid()
      ensures Current() == old(Current()).(days := Days.Removed(old(days), index))
    {
      days := Days.Removed(days, index);
    }

    /** `updateDay(index, field, value)`. */
    method UpdateDay(index: int, edit: Days.DayEdit)
      requires Valid() && Days.EditDefined(days, index, edit)
      modifies this
      ensures Valid()
      ensures Current() == old(Current()).(days := Days.Edited(old(days), index, edit))
    {
      days := Days.Edited(days, index, edit);
    }

    method SetNewInclusion(text: string)
      requires Valid()
      modifies this
      ensures Valid()
      ensures Current() == old(Current()).(newInclusion := text)
    {
      newInclusion := text;
    }

    method SetNewExclusion(text: string)
      requires Valid()
      modifies this
      ensures Valid()
      ensures Current() == old(Current()).(newExclusion := text)
    {
      newExclusion := text;
    }

    /**
     * `addInclusion`: a blank entry changes nothing and writes nothing; otherwise
     * the trimmed entry is appended, the input is cleared, and the custom
     * inclusions are returned as the list written to storage.
     */
    method AddInclusion() returns (persisted: Option<seq<string>>)
      requires Valid()
      modifies this
      ensures Valid()
      ensures Text.Trim(old(newInclusion)) == [] ==> Current() == old(Current()) && persisted == None
      ensures Text.Trim(old(newInclusion)) != [] ==>
        Current() == old(Current()).(
          inclusions := Checklist.Added(old(inclusions), old(newInclusion)), newInclusion := "")
        && persisted == Some(Checklist.CustomTexts(inclusions, Checklist.DefaultInclusions))
    {
      persisted := None;
      var entry := Text.Trim(newInclusion);
      if entry != [] {
        ghost var before := Current();
        inclusions := Checklist.Added(inclusions, newInclusion);
        newInclusion := "";
        persisted := Some(Checklist.CustomTexts(inclusions, Checklist.DefaultInclusions));
        assert Current() == before.(inclusions := inclusions, newInclusion := "");
      }
    }

    /** `addExclusion`, the same over the exclusions. */
    method AddExclusion() returns (persisted: Option<seq<string>>)
      requires Valid()
      modifies this
      ensures Valid()
      ensures Text.Trim(old(newExclusion)) == [] ==> Current() == old(Current()) && persisted == None
      ensures Text.Trim(old(newExclusion)) != [] ==>
        Current() == old(Current()).(
          exclusions := Checklist.Added(old(exclusions), old(newExclusion)), newExclusion := "")
        && persisted == Some(Checklist.CustomTexts(exclusions, Checklist.DefaultExclusions))
    {
      persisted := None;
      var entry := Text.Trim(newExclusion);
      if entry != [] {
        ghost var before := Current();
        exclusions := Checklist.Added(exclusions, newExclusion);
        newExclusion := "";
        persisted := Some(Checklist.CustomTexts(exclusions, Checklist.DefaultExclusions));
        assert Current() == before.(exclusions := exclusions, newExclusion := "");
      }
    }

    method ToggleInclusion(index: int)
      requires Valid()
      modifies this
      ensures Valid()
      ensures Current() == old(Current()).(inclusions := Checklist.Toggled(old(inclusions), index))
    {
      inclusions := Checklist.Toggled(inclusions, index);
    }

    method ToggleExclusion(index: int)
      requires Valid()
      modifies this
      ensures Valid()
      ensures Current() == old(Current()).(exclusions := Checklist.Toggled(old(exclusions), index))
    {
      exclusions := Checklist.Toggled(exclusions, index);
    }

    /** The content `generatePrintableItinerary` writes, from the current state. */
    function Printable(): (d: Document.Printable)
      reads this
      ensures d.packageAmount == packageAmount
      ensures d.totalHundredths == TotalAmount()
      ensures d.inclusions == Checklist.CheckedTexts(inclusions)
      ensures d.exclusions == Checklist.CheckedTexts(exclusions)
    {
      Document.Assemble(clientName, days, participants, packageAmount, includeGst, inclusions, exclusions)
    }
  }

  /**
   * In a valid session with the override off, the printed tier subtotals add
   * up to the printed package amount.
   */
  lemma PrintedSubtotalsMatchAmount(s: State)
    requires !s.isManualTotal && s.packageAmount == Pricing.AutoTotal(s.participants)
    ensures var d := Document.Assemble(s.clientName, s.days, s.participants, s.packageAmount,
                                       s.includeGst, s.inclusions, s.exclusions);
      d.adults.subtotal + d.children.subtotal + d.infants.subtotal == d.packageAmount
  {
    Document.FinancialsAddUp(s.clientName, s.days, s.participants, s.packageAmount,
                             s.includeGst, s.inclusions, s.exclusions);
  }
}
