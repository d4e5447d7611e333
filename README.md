# Itinerary builder — session state, pricing and listing, in Dafny

This project models the state logic of a travel-itinerary builder, a React
single-page app. A travel agent uses it to put together a day-by-day plan
for a client, price it by traveller tier with optional 18% GST, tick
inclusions and exclusions, print the result, and browse the saved
itineraries. The model covers three parts:

- **the editing session** (`App`): the handlers the app's main component
  runs on its `useState` fields, as methods of the class `App.Session`.
  Each method's postcondition gives the whole new state in terms of the old
  one. The class invariant `Valid()` says that, with the manual override off,
  the package amount equals the automatic total.
- **the pure logic behind the handlers**:
  - `Pricing`: the three tiers, the automatic total, GST and the total.
  - `Days`: adding a day, removing a day, and editing a day with its date
    cascade.
  - `Checklist`: the default items, loading saved custom items, adding a
    trimmed item, the custom subset that is persisted, and toggling.
  - `Document`: the content of the printable itinerary.
  - `Text`: the JavaScript string operations the app relies on (the
    `/^\d*$/` check, `Number`, `trim`, `toLowerCase`, `includes`, and the
    default order of `sort`).
  - `Seqs`: `filter` and `map`.
- **the day editor** (`DayManager`) and **the saved-itinerary listing**
  (`ItineraryList`):
  - the meal-plan table;
  - what each control shows and which callback it invokes;
  - the package date range of a record;
  - search;
  - admin and owner scoping;
  - the confirm-before-delete flow and the page buttons. These live in the
    class `ItineraryList.ListView`.

`Scenarios` drives a session through its handlers, as a user would. It
derives concrete quotes and day lists from the method contracts alone.

Units and representations:

- Amounts are whole rupees.
- The GST and the total are kept in hundredths of a rupee. With that, 18% of
  a whole amount is exact: `gst = 18 · amount` hundredths, and
  `total = 100 · amount + gst`.
- A day's date is a whole day number, and the day after `d` is `d + 1`.
  `None` stands for the empty or missing date string.
- In the listing, a record's day dates stay strings, because that is what
  the source sorts and compares.

The model follows the code as written on these points:

- Loading saved custom items does not remove duplicates.
- Unchecking the override does not clear the manual amount text.
- A date edit moves every later day to consecutive dates after the edited
  one. It does not keep their earlier spacing.
- The printable shows neither a day's header nor its meal plan.
- `pageCount` starts at 1 and is never changed, so the page buttons move
  within `[1, 1]`.

## Model

| member | source | states |
|---|---|---|
| Pricing.AutoTotal | src/App.jsx:135-140 | `calculateAutoTotal`: no tier subtotal exceeds it, and it is 0 for the starting participants; Pricing.WithFieldAutoTotal states how a tier edit moves it |
| Pricing.WithField | src/App.jsx:142-150 | the named field of the named tier takes the new value and every other (tier, field) pair keeps its value |
| Pricing.WithFieldAutoTotal | src/App.jsx:150-156 | after a tier edit the automatic total moves by exactly the change in that tier's subtotal |
| Pricing.WithFieldSameValue | src/App.jsx:142-150 | writing back a field's current value leaves the participants unchanged |
| Pricing.GstHundredths | src/App.jsx:159-160 | GST is 0 when off; when on, 100 times it equals 18% of the package amount in hundredths |
| Pricing.TotalHundredths | src/App.jsx:161 | the total is never below the package amount, exceeds it by exactly the GST, and is 118% of it with GST on |
| Pricing.TotalMonotonic | src/App.jsx:159-161 | GST and total never decrease as the package amount grows |
| Pricing.QuoteExample | src/App.jsx:135-161 | 2 adults at 5000 and 1 child at 3000 with GST give 13000, GST 2340.00, total 15340.00 |
| Text.IsNumericInput | src/App.jsx:94-96 | `validateNumberInput`; Text.NumericInputIffAllDigits states which strings it accepts |
| Text.DecimalValue | src/App.jsx:147 | `Number(value)` on accepted input, 0 for ''; Text.DecimalRoundTrip states that it reads back the shown value |
| Text.Trim | src/App.jsx:54-55 | `trim()`: never longer than its input; Text.TrimIsWhitespaceFreeInfix, Text.TrimBlankIffAllWhitespace and Text.TrimIdempotent state what it keeps |
| Text.NumericInputIffAllDigits | src/App.jsx:94-96 | a numeric field accepts a string exactly when every character is an ASCII digit (so the empty string too) |
| Text.DigitChar | src/App.jsx:308 | the character for a digit value is a digit that reads back as that value |
| Text.DecimalRoundTrip | src/App.jsx:147 | the decimal rendering of any count or cost is accepted by the field and `Number` reads it back as the same value |
| Text.TrimStartSpec | src/App.jsx:54-55 | trimming the start keeps a suffix, drops only whitespace, and stops at a non-whitespace character |
| Text.TrimEndSpec | src/App.jsx:54-55 | trimming the end keeps a prefix, drops only whitespace, and stops at a non-whitespace character |
| Text.TrimIsWhitespaceFreeInfix | src/App.jsx:54-55 | `trim` keeps a contiguous middle part, with only whitespace dropped around it, and that part neither starts nor ends with whitespace |
| Text.TrimBlankIffAllWhitespace | src/App.jsx:54 | an entry trims to nothing exactly when every character is whitespace |
| Text.TrimIdempotent | src/App.jsx:55 | trimming a trimmed entry changes nothing |
| Text.ToLower | src/components/ItineraryList.jsx:72-75 | lower-casing keeps the length |
| Text.IncludesEmpty | src/components/ItineraryList.jsx:74-75 | every string includes the empty query |
| Text.ToLowerIdempotent | src/components/ItineraryList.jsx:72-75 | lower-casing an already lower-cased query or field changes nothing |
| Text.LexLeTotal | src/components/ItineraryList.jsx:13 | any two strings are ordered one way or the other in `sort`'s default order |
| Text.LexLeTransitive | src/components/ItineraryList.jsx:13 | the default string order is transitive |
| Text.LexLeAntisymmetric | src/components/ItineraryList.jsx:13 | two strings each no later than the other are equal |
| Text.Insert | src/components/ItineraryList.jsx:13 | inserting into a sorted list gives a sorted list holding exactly one more copy of the new string |
| Text.Sort | src/components/ItineraryList.jsx:13 | `sort()` returns a sorted permutation of its input |
| Seqs.Map | src/App.jsx:28-29 | `map` keeps the length and puts `f` of the i-th element at position i |
| Seqs.FilterMembership | src/App.jsx:59-60 | an element survives `filter` exactly when it was present and passes the test |
| Seqs.FilterAppend | src/App.jsx:55-60 | filtering a concatenation filters each part |
| Seqs.FilterAll | src/App.jsx:207 | `filter` with a test every element passes returns the list unchanged |
| Seqs.FilterNone | src/components/ItineraryList.jsx:12 | `filter` with a test no element passes returns the empty list |
| Seqs.FilterIsSubsequence | src/components/ItineraryList.jsx:71-77 | `filter` keeps the surviving elements in their original order |
| Days.DayAfter | src/App.jsx:105-111 | the new day is dated the day after the last one when that has a date, is otherwise undated, and has no activities, header or meal plan |
| Days.Appended | src/App.jsx:104-113 | adding a day appends exactly one day, the day after the last, and leaves every earlier day as it was |
| Days.Removed | src/App.jsx:115-118 | removing index i takes out exactly the day at i, and an out-of-range index changes nothing |
| Days.Edited | src/App.jsx:120-133 | an edit keeps the number of days |
| Days.RemoveUndoesAppend | src/App.jsx:104-118 | removing the day just added restores the previous days |
| Days.EditTouchesOnlyItsDay | src/App.jsx:121-130 | an edit of a field other than the date, or any date edit (clearing included) of the last day, changes only the day it names, on that one field |
| Days.DateEditCascades | src/App.jsx:121-131 | setting a date keeps the earlier days, gives the edited day the value and each later day j the value plus (j - index), and changes no other field |
| Days.DateEditConsecutive | src/App.jsx:125-128 | after setting a date the days from the edited one on have consecutive dates |
| Days.EditOutOfRange | src/App.jsx:120-133 | an edit at an index past the end changes nothing |
| Days.CascadeExample | src/App.jsx:120-133 | re-dating day 1 after re-dating day 0 moves day 2 along but leaves day 0 alone |
| Days.AddDayExample | src/App.jsx:104-133 | adding after an undated day gives an undated day; after dating it, the next added day follows it |
| Checklist.Texts | src/App.jsx:61 | the texts of a list have one entry per item |
| Checklist.Loaded | src/App.jsx:20-31 | the loaded list is the defaults followed by the saved texts, no duplicates removed, every item checked |
| Checklist.Toggled | src/App.jsx:79-91 | toggling keeps the number of items |
| Checklist.Added | src/App.jsx:53-57 | the list update of `addInclusion`/`addExclusion`; Checklist.AddIgnoresOnlyBlank and Checklist.AddAppendsTrimmed state its effect |
| Checklist.CustomTexts | src/App.jsx:59-61 | the list written to storage; Checklist.CustomMembership, Checklist.CustomAfterAdd and Checklist.ReloadRoundTrip state what it holds |
| Checklist.CheckedTexts | src/App.jsx:207-215 | the printed list; Checklist.CheckedMembership and Checklist.LoadedPrintsEverything state what it holds |
| Checklist.TextsMembership | src/App.jsx:61 | a text is listed exactly when some item carries it |
| Checklist.TextsAppend | src/App.jsx:55-61 | the texts of two lists joined are the texts of each joined |
| Checklist.AddIgnoresOnlyBlank | src/App.jsx:53-55 | an add leaves the list as it was exactly when the entry is all whitespace |
| Checklist.AddAppendsTrimmed | src/App.jsx:54-57 | a non-blank entry appends one checked item with the trimmed text, free of edge whitespace, and keeps the earlier items |
| Checklist.CustomMembership | src/App.jsx:59-61 | the persisted custom list holds exactly the texts present that are not defaults |
| Checklist.CustomAfterAdd | src/App.jsx:53-62 | the list persisted after an add is the previous custom list plus the trimmed entry, unless that entry is blank or a default |
| Checklist.ReloadRoundTrip | src/App.jsx:20-31 | loading saved texts that are not defaults and persisting again writes back the same list |
| Checklist.CustomIsStable | src/App.jsx:20-62 | any persisted custom list survives another load and persist unchanged |
| Checklist.ToggleFlipsOne | src/App.jsx:79-84 | toggling flips only the checked flag of the item at the index and never changes a text |
| Checklist.ToggleTwiceRestores | src/App.jsx:79-91 | toggling the same item twice restores the list |
| Checklist.ToggleKeepsCustom | src/App.jsx:79-91 | toggling never changes the custom list that would be persisted |
| Checklist.CheckedMembership | src/App.jsx:207-215 | a text is printed exactly when some checked item carries it |
| Checklist.LoadedPrintsEverything | src/App.jsx:20-31 | a freshly loaded checklist prints every default and saved text in order |
| Document.Assemble | src/App.jsx:194-200 | the printable has one section per day |
| Document.DaySectionsNumberedWithFallback | src/App.jsx:194-200 | day i prints as "Day i+1" with its own date, with its activities or the fallback text when they are empty, and never blank |
| Document.PrintsCheckedOnly | src/App.jsx:205-218 | a text is printed under Inclusions or Exclusions exactly when a checked item of that list carries it |
| Document.FinancialsAddUp | src/App.jsx:222-227 | the printed tier subtotals add up to the automatic total, the GST line appears exactly with GST on, and the total is the amount plus GST |
| Document.TitleFallsBack | src/App.jsx:168-190 | the title is the client name, or "Your Journey" when there is none, and the "Prepared for" line appears exactly with a name |
| App.Session.constructor | src/App.jsx:20-51 | one undated day with no activities, amount 0, GST and override off, empty text fields, all counts and costs 0, and the checklists loaded from the defaults and the saved texts |
| App.Session.CalculateAutoTotal | src/App.jsx:135-140 | in a valid session with the override off, the automatic total is the package amount shown |
| App.Session.GstAmount | src/App.jsx:159-160 | GST is 0 when off and 18% of the package amount (in hundredths) when on |
| App.Session.TotalAmount | src/App.jsx:161 | the total is the package amount plus GST |
| App.Session.UpdateParticipants | src/App.jsx:142-157 | the named field becomes `Number(value)`; with the override off the package amount follows the tiers, with it on it stays; nothing else changes and the invariant holds |
| App.Session.HandleNumberInput | src/App.jsx:98-102 | input that is not all digits changes nothing; otherwise as `updateParticipants` |
| App.Session.SetManualOverride | src/App.jsx:378-383 | checking keeps the amount; unchecking resets it to the automatic total; the manual text is kept either way |
| App.Session.SetManualAmount | src/App.jsx:393-398 | accepted input is kept as typed and becomes the package amount (0 when empty); other input changes nothing |
| App.Session.SetIncludeGst | src/App.jsx:407 | only the GST flag changes, never the package amount |
| App.Session.SetClientName | src/App.jsx:262-263 | only the client name changes |
| App.Session.AddDay | src/App.jsx:104-113 | the days become `Days.Appended` of the old days, and nothing else changes |
| App.Session.RemoveDay | src/App.jsx:115-118 | the days become `Days.Removed` of the old days at the index, and nothing else changes |
| App.Session.UpdateDay | src/App.jsx:120-133 | the days become `Days.Edited` of the old days, and nothing else changes |
| App.Session.SetNewInclusion | src/App.jsx:434 | only the new-inclusion text changes |
| App.Session.SetNewExclusion | src/App.jsx:467 | only the new-exclusion text changes |
| App.Session.AddInclusion | src/App.jsx:53-64 | a blank entry changes and writes nothing; otherwise the trimmed entry is appended, the input cleared, and the non-default texts returned for storage |
| App.Session.AddExclusion | src/App.jsx:66-77 | the same over the exclusions |
| App.Session.ToggleInclusion | src/App.jsx:79-84 | only the inclusions change, to the list with that item's flag flipped |
| App.Session.ToggleExclusion | src/App.jsx:86-91 | only the exclusions change, to the list with that item's flag flipped |
| App.Session.Printable | src/App.jsx:163-227 | the printable shows the session's package amount and total, and only the checked inclusions and exclusions |
| App.PrintedSubtotalsMatchAmount | src/App.jsx:222-225 | with the override off, the printed tier subtotals add up to the printed package amount |
| Scenarios.QuoteWithGst | src/App.jsx:98-161 | typing 2 × 5000 and 1 × 3000, with a rejected non-digit entry, then turning GST on gives 13000, GST 2340.00 and total 15340.00 |
| Scenarios.OverrideThenRevert | src/App.jsx:142-157 | a manual 7500 survives a tier edit while the override is on; unchecking it gives the automatic 100 and keeps the manual text |
| Scenarios.DatedDays | src/App.jsx:104-133 | adding after an undated day gives no date; after dating it, the next day follows; removing the first day three times empties the plan |
| DayManager.LabelIn | src/components/DayManager.jsx:48-52 | a value has no label exactly when no option carries it; a found label is the one its option pairs with it |
| DayManager.MealPlanTable | src/components/DayManager.jsx:4-10 | five options with five distinct values, each with its own label; 'none' is "No Meals" |
| DayManager.ShownMealPlan | src/components/DayManager.jsx:45 | the select never shows an empty value; a set meal plan shows itself, otherwise 'none' |
| DayManager.Views | src/components/DayManager.jsx:13-55 | one view per day |
| DayManager.MissingFieldsShowDefaults | src/components/DayManager.jsx:16-45 | day i is numbered i+1; a missing header shows '' and a missing meal plan 'none' |
| DayManager.Dispatch | src/components/DayManager.jsx:18-46 | every control of day i calls back with index i, and exactly the delete button calls `removeDay` |
| DayManager.ControlShowsWhatItSets | src/components/DayManager.jsx:24-46 | after a control's callback the day shows what was entered, the number of days is kept, and every control but the date leaves other days alone |
| DayManager.DeleteRemovesOwnDay | src/components/DayManager.jsx:17-22 | the delete button of day i removes that day and no other |
| ItineraryList.PackageDatesOf | src/components/ItineraryList.jsx:5-30 | `getPackageDates` before date formatting; ItineraryList.NotAvailableIffNoDates and ItineraryList.RangeSpansAllDates state its result |
| ItineraryList.Search | src/components/ItineraryList.jsx:71-77 | `filteredItineraries`; ItineraryList.SearchKeepsMatchesInOrder and ItineraryList.EmptySearchKeepsAll state what it keeps |
| ItineraryList.VisibleTo | src/components/ItineraryList.jsx:52-57 | the records the load query asks for; ItineraryList.VisibilityRule states which |
| ItineraryList.WithoutId | src/components/ItineraryList.jsx:119 | the list after a confirmed delete; ItineraryList.WithoutIdRemovesExactly states what it drops |
| ItineraryList.NotAvailableIffNoDates | src/components/ItineraryList.jsx:5-17 | the dates are 'N/A' exactly when the record has no days or none of its days has a date |
| ItineraryList.RangeSpansAllDates | src/components/ItineraryList.jsx:10-20 | otherwise both ends are dates of the record, every dated day lies between them, and the start is no later than the end |
| ItineraryList.SearchKeepsMatchesInOrder | src/components/ItineraryList.jsx:71-77 | a record is listed exactly when the lower-cased query occurs in its lower-cased booking code or client name ('' when missing), in the records' order |
| ItineraryList.EmptySearchKeepsAll | src/components/ItineraryList.jsx:71-77 | an empty search lists every record |
| ItineraryList.VisibilityRule | src/components/ItineraryList.jsx:52-57 | 'admin' sees every record; anyone else sees exactly their own records, in table order |
| ItineraryList.WithoutIdRemovesExactly | src/components/ItineraryList.jsx:119 | a delete drops exactly the records with that id, keeps the rest in order, and changes nothing when no record has the id |
| ItineraryList.ListView.constructor | src/components/ItineraryList.jsx:33-40 | no records, loading, no error, page 1 of 1, no confirmation open, nothing selected, empty search |
| ItineraryList.ListView.Load | src/components/ItineraryList.jsx:47-69 | on success the records the user may see and no error; on failure the load error; loading ends either way |
| ItineraryList.ListView.SetSearchQuery | src/components/ItineraryList.jsx:167 | only the search query changes |
| ItineraryList.ListView.Filtered | src/components/ItineraryList.jsx:71-77 | the rows shown are a subsequence of the loaded records |
| ItineraryList.ListView.HandleDelete | src/components/ItineraryList.jsx:105-108 | only selects the record and opens the confirmation |
| ItineraryList.ListView.CancelDelete | src/components/ItineraryList.jsx:135-136 | closes the confirmation and removes nothing |
| ItineraryList.ListView.ConfirmDelete | src/components/ItineraryList.jsx:110-125 | on success the records with the selected id go and the confirmation closes; on failure or with nothing selected only the delete error is set |
| ItineraryList.ListView.FirstPage | src/components/ItineraryList.jsx:250 | only the page changes, to 1 |
| ItineraryList.ListView.PreviousPage | src/components/ItineraryList.jsx:257 | the page becomes `max(1, page - 1)` and stays in range |
| ItineraryList.ListView.NextPage | src/components/ItineraryList.jsx:267 | the page becomes `min(pageCount, page + 1)` and stays in range |
| ItineraryList.ListView.LastPage | src/components/ItineraryList.jsx:274 | only the page changes, to `pageCount` |
| ItineraryList.PageStepsStayInRange | src/components/ItineraryList.jsx:257-267 | Previous and Next lead to a page in [1, pageCount], one step away unless at the edge |

## Left out

- Floating point: GST is `packageAmount * 0.18` in the source. The model keeps it exact in hundredths of a rupee, so it leaves out binary rounding and `toLocaleString`'s two-decimal formatting. `Number` is exact on integers below 2^53 only, and the model's integers are unbounded.
- Dates: `new Date`, `setDate`, `toISOString` and time zones are not modelled. A date is a whole day number and "the next day" is `+ 1`, so daylight-saving shifts and UTC/local mismatches are not captured. The printed long date format and the listing's `toLocaleDateString` are presentation and are left out.
- `toLowerCase` is modelled on ASCII letters only. Unicode case mapping is not captured.
- `sort`'s default order compares UTF-16 code units. The model compares characters, which agrees on the date strings the listing sorts (ASCII `YYYY-MM-DD`) but not on every string.
- The HTML and styling of both pages, the print window, the `Loading icons...` guard and the loading and error screens are not modelled. The content of the printable is modelled as the `Document.Printable` value.
- Storage and the network: `localStorage` is not modelled. `AddInclusion` and `AddExclusion` return the list they would write, and the constructor takes the saved lists as parameters. The Supabase query and delete are not modelled; `Load` and `ConfirmDelete` take their outcome as a parameter, and `Load` takes the table as returned, already in `created_at` descending order. Asynchrony and interleaving of handlers are not captured.
- The signed-in user is the `username` parameter of `ListView`. The `auth.js` module is not part of this model.
- `PackageDetails.jsx` and `ParticipantDetails.jsx` are not part of this model. Neither are templates, booking-code generation and saving an itinerary.
- Pagination: `pageCount` is initialised to 1 and never updated, and the table shows every filtered row. The model keeps exactly that, and does not model any intended slicing into pages.
- Search on a record without `itinerary_data` throws in the source. The model reads a missing client name as '' and does not model that crash.
- App.Session.AddDay: requires at least one day, because the source reads the last day's date and throws on an empty list (reachable by deleting every day).
- App.Session.UpdateDay: requires `Days.EditDefined`, because clearing the date of a day that has later days makes the source shift an invalid date, and `toISOString` throws.
- App.Session.SetManualAmount: requires the override to be on, because the field is disabled otherwise and no input reaches the handler.
- App.Session.UpdateParticipants: requires numeric input, because its one caller (`HandleNumberInput`) passes only accepted input.
