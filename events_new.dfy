/** The client-side event list of `mobile/app/events-new.js`: the category and text
    filters applied to the fetched events, and the result-count label. */
module EventsNew {
  import opened Wrappers
  import opened Seqs
  import opened Text
  import opened Js

  datatype Category = Category(name: string)

  /** An event as the list screen receives it; `category` is the joined category row, if any. */
  datatype EventItem = EventItem(name: string, location: string, category: Option<Category>)

  /** The category chip that selects every event. */
  const AllCategories := "All"

  /** The category test: the event has a category and its name is exactly `selected`. */
  predicate InCategory(e: EventItem, selected: string) {
    e.category.Some? && e.category.value.name == selected
  }

  /** The text test: the lower-cased name or location contains the lower-cased query,
      which is not trimmed. */
  predicate MatchesQuery(e: EventItem, query: string) {
    ContainsIgnoreCase(e.name, query) || ContainsIgnoreCase(e.location, query)
  }

  /** Reference: an event is listed when it passes every filter that is switched on. */
  predicate Visible(e: EventItem, selected: string, query: string) {
    (selected == AllCategories || InCategory(e, selected)) && (IsBlank(query) || MatchesQuery(e, query))
  }

  /** The filter effect: the category filter unless `'All'` is selected, then the text
      filter unless the trimmed query is empty. */
  function FilterEvents(events: seq<EventItem>, selected: string, query: string): (r: seq<EventItem>)
    ensures |r| <= |events|
    ensures forall i :: 0 <= i < |r| ==> r[i] in events
  {
    var byCategory :=
      if selected != AllCategories then Filter(events, (e: EventItem) => InCategory(e, selected)) else events;
    if Trim(query) != "" then Filter(byCategory, (e: EventItem) => MatchesQuery(e, query)) else byCategory
  }

  /** The two chained filters are one filter by `Visible`. */
  lemma FilterEventsIsOneFilter(events: seq<EventItem>, selected: string, query: string)
    ensures FilterEvents(events, selected, query) == Filter(events, (e: EventItem) => Visible(e, selected, query))
  {
    var cat := (e: EventItem) => InCategory(e, selected);
    var text := (e: EventItem) => MatchesQuery(e, query);
    var visible := (e: EventItem) => Visible(e, selected, query);
    var yes := (e: EventItem) => true;
    if selected != AllCategories {
      if Trim(query) != "" {
        FilterFilter(events, cat, text, visible);
      } else {
        FilterFilter(events, cat, yes, visible);
        FilterAll(Filter(events, cat), yes);
      }
    } else {
      if Trim(query) != "" {
        FilterFilter(events, yes, text, visible);
        FilterAll(events, yes);
      } else {
        FilterAll(events, visible);
      }
    }
  }

  /** The list keeps the order of `events` and holds exactly its visible events. */
  lemma FilterEventsIsVisibleSubsequence(events: seq<EventItem>, selected: string, query: string)
    ensures IsSubsequence(FilterEvents(events, selected, query), events)
    ensures forall i :: 0 <= i < |FilterEvents(events, selected, query)| ==>
      Visible(FilterEvents(events, selected, query)[i], selected, query)
    ensures forall i :: 0 <= i < |events| && Visible(events[i], selected, query) ==>
      events[i] in FilterEvents(events, selected, query)
  {
    FilterEventsIsOneFilter(events, selected, query);
    FilterIsSubsequence(events, (e: EventItem) => Visible(e, selected, query));
  }

  /** With `'All'` selected and a blank query the list is shown unfiltered. */
  lemma NoFilterShowsAll(events: seq<EventItem>, query: string)
    requires IsBlank(query)
    ensures FilterEvents(events, AllCategories, query) == events
  {
    assert Trim(query) == "";
  }

  /** The words after the count: `event`, with an `s` unless the count is exactly 1. */
  function CountWords(count: nat): (r: string)
    ensures |r| > 0 && r[0] == ' '
    ensures r == " event found" <==> count == 1
  {
    if count != 1 then " events found" else " event found"
  }

  /** The results line: the count, then `event`, with an `s` unless the count is exactly 1. */
  function ResultsLabel(count: nat): (r: string)
    ensures StartsWith(r, NatToString(count))
    ensures |r| == |NatToString(count)| + |CountWords(count)|
    ensures count == 1 <==> EndsWith(r, " event found")
    ensures count != 1 <==> EndsWith(r, " events found")
  {
    var n := NatToString(count);
    var w := CountWords(count);
    var r := n + w;
    assert r[..|n|] == n;
    if count == 1 then
      assert n == "1" && r == "1 event found";
      r
    else
      assert r[|r| - 13..] == w;
      assert r[|r| - 12..][0] == w[1] == 'e';
      assert r[|r| - 12..] != " event found";
      r
  }

  /** A consistency check of `NatToString` rather than a behaviour of the screen: the
      number at the head of the label reads back as the count. */
  lemma ResultsLabelCount(count: nat)
    ensures ParseInt(ResultsLabel(count)) == Some(count)
  {
    assert CountWords(count)[0] == ' ';
    ParseIntOfNatToStringThen(count, CountWords(count));
  }
}
