/**
 * The saved-itinerary listing: the package date range of a record, the
 * search filter, which records a user may see, the confirm-before-delete
 * flow, and the page buttons.
 */
module ItineraryList {
  import opened Wrappers
  import Text
  import Seqs

  /**
   * A saved itinerary as the listing reads it. `dayDates` holds the date
   * string of each stored day ("" when a day has none), or is `None` when the
   * record carries no days at all.
   */
  datatype Record = Record(
    id: int,
    bookingCode: string,
    clientName: Option<string>,
    username: string,
    dayDates: Option<seq<string>>)

  /** What the "Package Dates" column shows, before date formatting. */
  datatype PackageDates = NotAvailable | Range(start: string, end: string)

  const Admin := "admin"
  const LoadFailed := "Failed to load itineraries"
  const DeleteFailed := "Failed to delete itinerary"

  // ---------------------------------------------------------------------------
  // getPackageDates
  // ---------------------------------------------------------------------------

  function IsNonEmpty(s: string): bool { s != "" }

  /** `getPackageDates`: the first and last of the sorted non-empty dates, or 'N/A'. */
  function PackageDatesOf(r: Record): PackageDates
  {
    if r.dayDates.None? || r.dayDates.value == [] then NotAvailable
    else
      var sorted := Text.Sort(Seqs.Filter(r.dayDates.value, IsNonEmpty));
      if sorted == [] then NotAvailable else Range(sorted[0], sorted[|sorted| - 1])
  }

  lemma {:induction false} LexLeReflexive(s: string)
    ensures Text.LexLe(s, s)
  {
    if s != [] {
      LexLeReflexive(s[1..]);
    }
  }

  /** 'N/A' exactly when the record has no days or none of its days has a date. */
  lemma NotAvailableIffNoDates(r: Record)
    ensures PackageDatesOf(r).NotAvailable? <==>
      r.dayDates.None? || forall k :: 0 <= k < |r.dayDates.value| ==> r.dayDates.value[k] == ""
  {
    if r.dayDates.Some? && r.dayDates.value != [] {
      var dates := r.dayDates.value;
      var kept := Seqs.Filter(dates, IsNonEmpty);
      if forall k :: 0 <= k < |dates| ==> dates[k] == "" {
        Seqs.FilterNone(dates, IsNonEmpty);
        assert Text.Sort(kept) == [];
      } else {
        var k :| 0 <= k < |dates| && dates[k] != "";
        Seqs.FilterMembership(dates, IsNonEmpty, dates[k]);
        SortedEnds(kept);
      }
    }
  }

  /**
   * Otherwise the range runs from the earliest to the latest non-empty date
   * string in string order: both ends are dates of the record, every dated
   * day lies between them, and the start is no later than the end.
   */
  lemma RangeSpansAllDates(r: Record)
    requires PackageDatesOf(r).Range?
    ensures var p := PackageDatesOf(r);
      var dates := r.dayDates.value;
      p.start in dates && p.end in dates && p.start != "" && p.end != ""
      && (forall k :: 0 <= k < |dates| && dates[k] != "" ==>
            Text.LexLe(p.start, dates[k]) && Text.LexLe(dates[k], p.end))
      && Text.LexLe(p.start, p.end)
  {
    var dates := r.dayDates.value;
    var kept := Seqs.Filter(dates, IsNonEmpty);
    var sorted := Text.Sort(kept);
    SortedEnds(kept);
    assert PackageDatesOf(r) == Range(sorted[0], sorted[|sorted| - 1]);
    Seqs.FilterMembership(dates, IsNonEmpty, sorted[0]);
    Seqs.FilterMembership(dates, IsNonEmpty, sorted[|sorted| - 1]);
    forall k | 0 <= k < |dates| && dates[k] != ""
      ensures Text.LexLe(sorted[0], dates[k]) && Text.LexLe(dates[k], sorted[|sorted| - 1])
    {
      Seqs.FilterMembership(dates, IsNonEmpty, dates[k]);
    }
  }

  /** The first and last elements of a sorted list are its least and greatest. */
  lemma SortedEnds(s: seq<string>)
    requires s != []
    ensures var t := Text.Sort(s);
      t != [] && t[0] in s && t[|t| - 1] in s
      && forall x :: x in s ==> Text.LexLe(t[0], x) && Text.LexLe(x, t[|t| - 1])
  {
    var t := Text.Sort(s);
    assert s[0] in multiset(t);
    assert t[0] in multiset(s);
    assert t[|t| - 1] in multiset(s);
    forall x | x in s ensures Text.LexLe(t[0], x) && Text.LexLe(x, t[|t| - 1]) {
      assert x in multiset(t);
      var m :| 0 <= m < |t| && t[m] == x;
      LexLeReflexive(x);
    }
  }

  // ---------------------------------------------------------------------------
  // Search and visibility
  // ---------------------------------------------------------------------------

  /** The search test: the lower-cased query occurs in the booking code or the client name. */
  function MatchesQuery(query: string): Record -> bool
  {
    (r: Record) =>
      Text.Includes(Text.ToLower(r.bookingCode), Text.ToLower(query))
      || Text.Includes(Text.ToLower(r.clientName.GetOr("")), Text.ToLower(query))
  }

  /** `filteredItineraries`. */
  function Search(records: seq<Record>, query: string): seq<Record>
  {
    Seqs.Filter(records, MatchesQuery(query))
  }

  /**
   * A record is listed exactly when it matches, case aside, in its booking code
   * or client name (a missing name searched as ''); the listing keeps the
   * records' order.
   */
  lemma SearchKeepsMatchesInOrder(records: seq<Record>, query: string, r: Record)
    ensures r in Search(records, query) <==>
      (r in records
       && (Text.Includes(Text.ToLower(r.bookingCode), Text.ToLower(query))
           || Text.Includes(Text.ToLower(r.clientName.GetOr("")), Text.ToLower(query))))
    ensures Seqs.IsSubsequence(Search(records, query), records)
  {
    Seqs.FilterMembership(records, MatchesQuery(query), r);
    Seqs.FilterIsSubsequence(records, MatchesQuery(query));
  }

  /** An empty search lists every record. */
  lemma EmptySearchKeepsAll(records: seq<Record>)
    ensures Search(records, "") == records
  {
    forall r | r in records ensures MatchesQuery("")(r) {
      Text.IncludesEmpty(Text.ToLower(r.bookingCode));
    }
    Seqs.FilterAll(records, MatchesQuery(""));
  }

  function OwnedBy(username: string): Record -> bool
  {
    (r: Record) => r.username == username
  }

  /** The records the query for `username` asks for: all for 'admin', else only their own. */
  function VisibleTo(table: seq<Record>, username: string): seq<Record>
  {
    if username == Admin then table else Seqs.Filter(table, OwnedBy(username))
  }

  /** 'admin' sees every record; anyone else sees exactly the records they own, in table order. */
  lemma VisibilityRule(table: seq<Record>, username: string, r: Record)
    ensures username == Admin ==> VisibleTo(table, username) == table
    ensures username != Admin ==>
      (r in VisibleTo(table, username) <==> r in table && r.username == username)
    ensures Seqs.IsSubsequence(VisibleTo(table, username), table)
  {
    Seqs.FilterMembership(table, OwnedBy(username), r);
    Seqs.FilterIsSubsequence(table, OwnedBy(username));
    if username == Admin {
      Seqs.FilterAll(table, (x: Record) => true);
      Seqs.FilterIsSubsequence(table, (x: Record) => true);
    }
  }

  function HasOtherId(id: int): Record -> bool
  {
    (r: Record) => r.id != id
  }

  /** The list after a confirmed delete: the records with another id, in order. */
  function WithoutId(records: seq<Record>, id: int): seq<Record>
  {
    Seqs.Filter(records, HasOtherId(id))
  }

  /** A delete drops exactly the records carrying the id and keeps the rest in order. */
  lemma WithoutIdRemovesExactly(records: seq<Record>, id: int, r: Record)
    ensures r in WithoutId(records, id) <==> r in records && r.id != id
    ensures Seqs.IsSubsequence(WithoutId(records, id), records)
    ensures (forall x :: x in records ==> x.id != id) ==> WithoutId(records, id) == records
  {
    Seqs.FilterMembership(records, HasOtherId(id), r);
    Seqs.FilterIsSubsequence(records, HasOtherId(id));
    if forall x :: x in records ==> x.id != id {
      Seqs.FilterAll(records, HasOtherId(id));
    }
  }

  // ---------------------------------------------------------------------------
  // The component's state
  // ---------------------------------------------------------------------------

  datatype ListState = ListState(
    itineraries: seq<Record>,
    loading: bool,
    error: Option<string>,
    currentPage: nat,
    pageCount: nat,
    showDeleteModal: bool,
    selected: Option<Record>,
    searchQuery: string)

  /**
   * The state of the listing component for the signed-in `username`. The
   * source starts `pageCount` at 1 and never changes it.
   */
  class ListView {
    const username: string
    var itineraries: seq<Record>
    var loading: bool
    var error: Option<string>
    var currentPage: nat
    var pageCount: nat
    var showDeleteModal: bool
    var selected: Option<Record>
    var searchQuery: string

    ghost function Current(): ListState
      reads this
    {
      ListState(itineraries, loading, error, currentPage, pageCount, showDeleteModal, selected, searchQuery)
    }

    /** The current page is always a page that exists. */
    ghost predicate Valid()
      reads this
    {
      1 <= currentPage <= pageCount
    }

    constructor (username: string)
      ensures Valid() && this.username == username
      ensures Current() == ListState([], true, None, 1, 1, false, None, "")
    {
      this.username := username;
      itineraries := [];
      loading := true;
      error := None;
      currentPage := 1;
      pageCount := 1;
      showDeleteModal := false;
      selected := None;
      searchQuery := "";
    }

    /**
     * `loadItineraries`, with the remote query's outcome as input: on success
     * the records `username` may see, in the order the store returns them.
     */
    method Load(succeeded: bool, table: seq<Record>)
      requires Valid()
      modifies this
      ensures Valid()
      ensures succeeded ==> Current() == old(Current()).(
        itineraries := VisibleTo(table, username), loading := false, error := None)
      ensures !succeeded ==> Current() == old(Current()).(loading := false, error := Some(LoadFailed))
    {
      loading := true;
      error := None;
      if succeeded {
        itineraries := VisibleTo(table, username);
      } else {
        error := Some(LoadFailed);
      }
      loading := false;
    }

    method SetSearchQuery(query: string)
      requires Valid()
      modifies this
      ensures Valid()
      ensures Current() == old(Current()).(searchQuery := query)
    {
      searchQuery := query;
    }

    /** The rows the table shows. */
    function Filtered(): (rows: seq<Record>)
      reads this
      ensures Seqs.IsSubsequence(rows, itineraries)
    {
      Seqs.FilterIsSubsequence(itineraries, MatchesQuery(searchQuery));
      Search(itineraries, searchQuery)
    }

    /** `handleDelete`: only remembers the record and opens the confirmation. */
    method HandleDelete(r: Record)
      requires Valid()
      modifies this
      ensures Valid()
      ensures Current() == old(Current()).(selected := Some(r), showDeleteModal := true)
    {
      selected := Some(r);
      showDeleteModal := true;
    }

    /** The Cancel button: closes the confirmation, removes nothing. */
    method CancelDelete()
      requires Valid()
      modifies this
      ensures Valid()
      ensures Current() == old(Current()).(showDeleteModal := false)
    {
      showDeleteModal := false;
    }

    /**
     * `confirmDelete`, with the remote delete's outcome as input. On success
     * the records with the selected id go and the confirmation closes; on
     * failure, or with nothing selected (reading its id throws inside the
     * `try`), only the error is set.
     */
    method ConfirmDelete(succeeded: bool)
      requires Valid()
      modifies this
      ensures Valid()
      ensures old(selected).Some? && succeeded ==> Current() == old(Current()).(
        itineraries := WithoutId(old(itineraries), old(selected).value.id), showDeleteModal := false)
      ensures old(selected).None? || !succeeded ==> Current() == old(Current()).(error := Some(DeleteFailed))
    {
      if selected.Some? && succeeded {
        itineraries := WithoutId(itineraries, selected.value.id);
        showDeleteModal := false;
      } else {
        error := Some(DeleteFailed);
      }
    }

    method FirstPage()
      requires Valid()
      modifies this
      ensures Valid()
      ensures Current() == old(Current()).(currentPage := 1)
    {
      currentPage := 1;
    }

    /** `Math.max(1, prev - 1)`. */
    method PreviousPage()
      requires Valid()
      modifies this
      ensures Valid()
      ensures Current() == old(Current()).(currentPage := if old(currentPage) > 1 then old(currentPage) - 1 else 1)
    {
      currentPage := if currentPage - 1 > 1 then currentPage - 1 else 1;
    }

    /** `Math.min(pageCount, prev + 1)`. */
    method NextPage()
      requires Valid()
      modifies this
      ensures Valid()
      ensures Current() == old(Current()).(
        currentPage := if old(currentPage) < old(pageCount) then old(currentPage) + 1 else old(pageCount))
    {
      currentPage := if pageCount < currentPage + 1 then pageCount else currentPage + 1;
    }

    method LastPage()
      requires Valid()
      modifies this
      ensures Valid()
      ensures Current() == old(Current()).(currentPage := old(pageCount))
    {
      currentPage := pageCount;
    }
  }

  /** The page a Previous or Next click leads to lies within [1, pageCount]. */
  lemma PageStepsStayInRange(currentPage: nat, pageCount: nat)
    requires 1 <= currentPage <= pageCount
    ensures var prev := if currentPage - 1 > 1 then currentPage - 1 else 1;
      var next := if pageCount < currentPage + 1 then pageCount else currentPage + 1;
      1 <= prev <= currentPage && currentPage <= next <= pageCount
      && (currentPage > 1 ==> prev == currentPage - 1)
      && (currentPage < pageCount ==> next == currentPage + 1)
  {
  }
}
