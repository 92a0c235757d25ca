/**
 * The admin interaction timeline of src/components/admin/TimelineView.tsx: a copy of the
 * event log, narrowed to one event type unless "all" is chosen, sorted newest first and
 * cut to the chosen number of events. The limit comes from a menu of positive counts.
 */
module TimelineView {
  import opened Seqs
  import opened StableSort
  import opened AnalyticsEvents

  const AllTypes := "all"

  const Timestamp: Event -> int := (e: Event) => e.timestamp

  function OfType(t: string): Event -> bool {
    (e: Event) => e.eventType == t
  }

  /** The events the type menu lets through: all of them for "all", else those of the chosen type. */
  function ByType(events: seq<Event>, eventTypeFilter: string): (r: seq<Event>)
    ensures eventTypeFilter == AllTypes ==> r == events
    ensures eventTypeFilter != AllTypes ==> forall e :: e in r <==> e in events && e.eventType == eventTypeFilter
    ensures eventTypeFilter != AllTypes ==>
      forall e :: multiset(r)[e] == if e.eventType == eventTypeFilter then multiset(events)[e] else 0
  {
    if eventTypeFilter == AllTypes then events
    else
      FilterMembers(events, OfType(eventTypeFilter));
      FilterMultiset(events, OfType(eventTypeFilter));
      Filter(events, OfType(eventTypeFilter))
  }

  /** The first `limit` events of the newest-first order of the events let through. */
  function Shown(events: seq<Event>, eventTypeFilter: string, limit: nat): seq<Event> {
    var sorted := SortDesc(ByType(events, eventTypeFilter), Timestamp);
    if limit < |sorted| then sorted[..limit] else sorted
  }

  /** The local `filteredEvents`, reassigned step by step as the component does. */
  method Timeline(events: seq<Event>, eventTypeFilter: string, limit: nat) returns (shown: seq<Event>)
    ensures var selected := ByType(events, eventTypeFilter);
      && |shown| == (if limit < |selected| then limit else |selected|)
      && SortedDesc(shown, Timestamp)
      && multiset(shown) <= multiset(selected)
      && (forall y, i :: y in multiset(selected) - multiset(shown) && 0 <= i < |shown| ==> y.timestamp <= shown[i].timestamp)
    ensures shown == Shown(events, eventTypeFilter, limit)
  {
    var filteredEvents := events;
    if eventTypeFilter != AllTypes {
      filteredEvents := Filter(filteredEvents, OfType(eventTypeFilter));
    }
    filteredEvents := SortDesc(filteredEvents, Timestamp);
    if limit < |filteredEvents| {
      filteredEvents := filteredEvents[..limit];
    }
    shown := filteredEvents;
    ShownMeaning(events, eventTypeFilter, limit);
  }

  /**
   * The timeline is newest first, holds no more than `limit` events, each of them let through
   * by the type menu, and no event let through but left out is newer than one shown.
   */
  lemma ShownMeaning(events: seq<Event>, eventTypeFilter: string, limit: nat)
    ensures var selected := ByType(events, eventTypeFilter); var shown := Shown(events, eventTypeFilter, limit);
      && |shown| == (if limit < |selected| then limit else |selected|)
      && SortedDesc(shown, Timestamp)
      && multiset(shown) <= multiset(selected)
      && (forall y, i :: y in multiset(selected) - multiset(shown) && 0 <= i < |shown| ==> y.timestamp <= shown[i].timestamp)
  {
    var selected := ByType(events, eventTypeFilter);
    TopKeys(selected, Timestamp, limit);
  }

  /** Every event shown is in the log and of the chosen type unless "all" is chosen. */
  lemma ShownFiltered(events: seq<Event>, eventTypeFilter: string, limit: nat, e: Event)
    requires e in Shown(events, eventTypeFilter, limit)
    ensures e in events && (eventTypeFilter == AllTypes || e.eventType == eventTypeFilter)
  {
    ShownMeaning(events, eventTypeFilter, limit);
    assert e in multiset(Shown(events, eventTypeFilter, limit));
  }
}
