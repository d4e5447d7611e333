/**
 * The inclusion and exclusion checklists: loading defaults and saved custom
 * items, adding a trimmed item, the custom subset that is persisted, toggling
 * an item, and the checked-only lists the printable shows.
 */
module Checklist {
  import Text
  import Seqs

  /** One line of a checklist. */
  datatype Item = Item(text: string, checked: bool)

  const DefaultInclusions: seq<string> := [
    "Hotel Accommodation",
    "Breakfast",
    "Airport Transfers",
    "Sightseeing as per itinerary",
    "Tour Guide"
  ]

  const DefaultExclusions: seq<string> := [
    "Airfare",
    "Lunch and Dinner",
    "Entry Fees",
    "Personal Expenses",
    "Travel Insurance"
  ]

  function ItemText(item: Item): string { item.text }

  function IsChecked(item: Item): bool { item.checked }

  function CheckedItem(text: string): Item { Item(text, true) }

  /** The predicate of the custom-item filter: the text is not one of `defaults`. */
  function NotDefault(defaults: seq<string>): Item -> bool
  {
    (item: Item) => item.text !in defaults
  }

  /** The texts of a list, in order. */
  function Texts(items: seq<Item>): (r: seq<string>)
    ensures |r| == |items|
  {
    Seqs.Map(items, ItemText)
  }

  /**
   * `loadSavedItems` for one list: the defaults followed by the saved texts,
   * without removing duplicates, every item checked.
   */
  function Loaded(defaults: seq<string>, saved: seq<string>): (r: seq<Item>)
    ensures Texts(r) == defaults + saved
    ensures forall i :: 0 <= i < |r| ==> r[i].checked
  {
    Seqs.Map(defaults + saved, CheckedItem)
  }

  /** `addInclusion` / `addExclusion`: a non-blank entry is trimmed and appended, checked. */
  function Added(items: seq<Item>, entry: string): seq<Item>
  {
    var t := Text.Trim(entry);
    if t == [] then items else items + [Item(t, true)]
  }

  /** The list written to storage after an add: the texts that are not defaults, in order. */
  function CustomTexts(items: seq<Item>, defaults: seq<string>): seq<string>
  {
    Texts(Seqs.Filter(items, NotDefault(defaults)))
  }

  /** `toggleInclusion(index)` / `toggleExclusion(index)`. */
  function Toggled(items: seq<Item>, index: int): (r: seq<Item>)
    ensures |r| == |items|
  {
    seq(|items|, i requires 0 <= i < |items| =>
      if i == index then items[i].(checked := !items[i].checked) else items[i])
  }

  /** The texts the printable lists: the checked items, in order. */
  function CheckedTexts(items: seq<Item>): seq<string>
  {
    Texts(Seqs.Filter(items, IsChecked))
  }

  /** A text is in the mapped list exactly when some item carries it. */
  lemma TextsMembership(items: seq<Item>, x: string)
    ensures x in Texts(items) <==> exists i :: 0 <= i < |items| && items[i].text == x
  {
    if x in Texts(items) {
      var k :| 0 <= k < |items| && Texts(items)[k] == x;
      assert items[k].text == x;
    }
  }

  lemma TextsAppend(a: seq<Item>, b: seq<Item>)
    ensures Texts(a + b) == Texts(a) + Texts(b)
  {
  }

  /** The entry is ignored exactly when it is empty or all whitespace. */
  lemma AddIgnoresOnlyBlank(items: seq<Item>, entry: string)
    ensures Added(items, entry) == items <==> forall k :: 0 <= k < |entry| ==> Text.IsJsWhitespace(entry[k])
  {
    Text.TrimBlankIffAllWhitespace(entry);
    if Text.Trim(entry) != [] {
      assert |Added(items, entry)| == |items| + 1;
    }
  }

  /**
   * A non-blank entry adds one checked item at the end, with no leading or
   * trailing whitespace, and leaves the earlier items as they were.
   */
  lemma AddAppendsTrimmed(items: seq<Item>, entry: string)
    requires Text.Trim(entry) != []
    ensures var r := Added(items, entry);
      |r| == |items| + 1 && r[..|items|] == items && r[|items|].checked
      && r[|items|].text == Text.Trim(entry)
      && !Text.IsJsWhitespace(r[|items|].text[0])
      && !Text.IsJsWhitespace(r[|items|].text[|r[|items|].text| - 1])
  {
    Text.TrimIsWhitespaceFreeInfix(entry);
    assert (items + [Item(Text.Trim(entry), true)])[..|items|] == items;
  }

  /** The persisted custom list never holds a default, and holds every other text present. */
  lemma CustomMembership(items: seq<Item>, defaults: seq<string>, x: string)
    ensures x in CustomTexts(items, defaults) <==> x !in defaults && x in Texts(items)
  {
    var kept := Seqs.Filter(items, NotDefault(defaults));
    TextsMembership(kept, x);
    TextsMembership(items, x);
    if x in CustomTexts(items, defaults) {
      var i :| 0 <= i < |kept| && kept[i].text == x;
      assert kept[i] in kept;
      Seqs.FilterMembership(items, NotDefault(defaults), kept[i]);
      var j :| 0 <= j < |items| && items[j] == kept[i];
    }
    if x !in defaults && x in Texts(items) {
      var i :| 0 <= i < |items| && items[i].text == x;
      Seqs.FilterMembership(items, NotDefault(defaults), items[i]);
    }
  }

  /**
   * The list persisted after an add is the one before it, followed by the new
   * text unless that text is blank or a default.
   */
  lemma CustomAfterAdd(items: seq<Item>, entry: string, defaults: seq<string>)
    ensures var t := Text.Trim(entry);
      CustomTexts(Added(items, entry), defaults)
      == CustomTexts(items, defaults) + (if t == [] || t in defaults then [] else [t])
  {
    var t := Text.Trim(entry);
    if t != [] {
      Seqs.FilterAppend(items, [Item(t, true)], NotDefault(defaults));
      assert Seqs.Filter([Item(t, true)], NotDefault(defaults))
        == (if t in defaults then [] else [Item(t, true)]);
      TextsAppend(Seqs.Filter(items, NotDefault(defaults)), Seqs.Filter([Item(t, true)], NotDefault(defaults)));
    }
  }

  /**
   * Loading and persisting again round-trips: when no saved text is a default,
   * the custom list computed from the loaded checklist is the saved list itself.
   */
  lemma ReloadRoundTrip(defaults: seq<string>, saved: seq<string>)
    requires forall t :: t in saved ==> t !in defaults
    ensures CustomTexts(Loaded(defaults, saved), defaults) == saved
  {
    var items := Loaded(defaults, saved);
    var front := Seqs.Map(defaults, CheckedItem);
    var back := Seqs.Map(saved, CheckedItem);
    assert items == front + back;
    Seqs.FilterAppend(front, back, NotDefault(defaults));
    Seqs.FilterNone(front, NotDefault(defaults));
    Seqs.FilterAll(back, NotDefault(defaults));
    assert Texts(back) == saved;
  }

  /** Every text a custom list holds survives another load-and-persist unchanged. */
  lemma CustomIsStable(items: seq<Item>, defaults: seq<string>)
    ensures var saved := CustomTexts(items, defaults);
      CustomTexts(Loaded(defaults, saved), defaults) == saved
  {
    var saved := CustomTexts(items, defaults);
    forall t | t in saved ensures t !in defaults {
      CustomMembership(items, defaults, t);
    }
    ReloadRoundTrip(defaults, saved);
  }

  /** Toggling flips the checked flag of the one item at `index`; texts never change. */
  lemma ToggleFlipsOne(items: seq<Item>, index: int)
    ensures var r := Toggled(items, index);
      Texts(r) == Texts(items)
      && (forall i :: 0 <= i < |items| && i != index ==> r[i] == items[i])
      && (0 <= index < |items| ==> r[index].checked == !items[index].checked)
  {
  }

  /** Toggling the same item twice restores the list. */
  lemma ToggleTwiceRestores(items: seq<Item>, index: int)
    ensures Toggled(Toggled(items, index), index) == items
  {
  }

  /** Toggling is session-only: it never changes the custom list that would be persisted. */
  lemma ToggleKeepsCustom(items: seq<Item>, index: int, defaults: seq<string>)
    ensures CustomTexts(Toggled(items, index), defaults) == CustomTexts(items, defaults)
    decreases |items|
  {
    if items != [] {
      var r := Toggled(items, index);
      assert r[1..] == Toggled(items[1..], index - 1);
      ToggleKeepsCustom(items[1..], index - 1, defaults);
      assert r[0].text == items[0].text;
    }
  }

  /** A text is printed exactly when some checked item carries it. */
  lemma CheckedMembership(items: seq<Item>, x: string)
    ensures x in CheckedTexts(items) <==> exists i :: 0 <= i < |items| && items[i].checked && items[i].text == x
  {
    var kept := Seqs.Filter(items, IsChecked);
    TextsMembership(kept, x);
    if x in CheckedTexts(items) {
      var i :| 0 <= i < |kept| && kept[i].text == x;
      assert kept[i] in kept;
      Seqs.FilterMembership(items, IsChecked, kept[i]);
      var j :| 0 <= j < |items| && items[j] == kept[i];
    }
    if exists i :: 0 <= i < |items| && items[i].checked && items[i].text == x {
      var i :| 0 <= i < |items| && items[i].checked && items[i].text == x;
      Seqs.FilterMembership(items, IsChecked, items[i]);
    }
  }

  /** A freshly loaded checklist prints every default and every saved text, in order. */
  lemma LoadedPrintsEverything(defaults: seq<string>, saved: seq<string>)
    ensures CheckedTexts(Loaded(defaults, saved)) == defaults + saved
  {
    Seqs.FilterAll(Loaded(defaults, saved), IsChecked);
  }
}
