/**
 * The browser side of analytics, src/hooks/useAnalytics.ts: the module-level event queue
 * with its flush, and one `useAnalytics` hook's session id, hover timers and section
 * timers. The clock, the random id suffix and whether `fetch` resolves are parameters.
 */
module ClientAnalytics {
  import opened Wrappers
  import opened Text
  import opened OrderedMap
  import opened AnalyticsEvents

  /** `${element}-${section || ''}`: the hover timer key. */
  function HoverKey(element: string, section: string): string {
    element + "-" + section
  }

  /** `Object.keys(timers)[0]`, with "" for an empty object. */
  function FirstKey(timers: seq<(string, int)>): (k: string)
    ensures timers == [] ==> k == ""
    ensures timers != [] ==> k == timers[0].0 && k in Keys(timers)
  {
    if timers == [] then "" else timers[0].0
  }

  /** At most one section is being timed, under a non-empty name and from a non-zero start. */
  predicate OneTimer(timers: seq<(string, int)>) {
    |timers| <= 1 && forall i :: 0 <= i < |timers| ==> timers[i].0 != "" && timers[i].1 != 0
  }

  /** The event queue shared by the page, with one hook's refs. */
  class AnalyticsClient {
    /** `eventQueue`. */
    var queue: seq<Event>
    /** `sessionId.current`. */
    const sessionId: string
    /** `hoverTimers.current`: hover key to start time. */
    var hoverTimers: seq<(string, int)>
    /** `sectionTimers.current`: section to start time. */
    var sectionTimers: seq<(string, int)>

    constructor (sessionId: string)
      ensures this.sessionId == sessionId
      ensures queue == [] && hoverTimers == [] && sectionTimers == []
    {
      this.sessionId := sessionId;
      queue := [];
      hoverTimers := [];
      sectionTimers := [];
    }

    /** The event `track` queues: fresh id and timestamp, and this hook's session. */
    function Full(e: Event, now: nat, suffix: string): (r: Event)
      reads this
      ensures r.id == Stamp(now, suffix) && r.timestamp == now && r.sessionId == sessionId
      ensures r.(id := e.id, timestamp := e.timestamp, sessionId := e.sessionId) == e
    {
      e.(id := Stamp(now, suffix), timestamp := now, sessionId := sessionId)
    }

    /** `flushEvents`, where `fetchResolves` says whether the request went out without throwing. */
    method Flush(fetchResolves: bool) returns (sent: Option<Event>)
      modifies this
      ensures old(queue) == [] ==> sent == None && queue == []
      ensures old(queue) != [] ==> sent == Some(old(queue)[0])
      ensures old(queue) != [] && fetchResolves ==> queue == []
      ensures !fetchResolves ==> queue == old(queue)
      ensures hoverTimers == old(hoverTimers) && sectionTimers == old(sectionTimers)
    {
      if |queue| == 0 {
        return None;
      }
      var eventsToSend := queue;
      queue := [];
      sent := Some(eventsToSend[0]);
      if !fetchResolves {
        queue := eventsToSend + queue;
      }
    }

    /** `track`: stamps the event and queues it last. */
    method Track(e: Event, now: nat, suffix: string)
      modifies this
      ensures queue == old(queue) + [Full(e, now, suffix)]
      ensures hoverTimers == old(hoverTimers) && sectionTimers == old(sectionTimers)
    {
      queue := queue + [e.(id := Stamp(now, suffix), timestamp := now, sessionId := sessionId)];
    }

    /** `trackClick`: a click at the given position, or at (0, 0) when none is given. */
    method TrackClick(element: string, section: string, position: Option<Position>, now: nat, suffix: string)
      modifies this
      ensures |queue| == |old(queue)| + 1 && queue[..|old(queue)|] == old(queue)
      ensures var e := queue[|queue| - 1];
        && e.eventType == Click && e.element == element && e.section == section
        && e.position == Some(if position.Some? then position.value else Position(0, 0))
        && e.timestamp == now && e.sessionId == sessionId
      ensures hoverTimers == old(hoverTimers) && sectionTimers == old(sectionTimers)
    {
      var at := if position.Some? then position.value else Position(0, 0);
      Track(Event("", Click, element, section, Some(at), 0, "", NoMetadata), now, suffix);
    }

    /** `trackScroll`: a scroll event carrying the depth. */
    method TrackScroll(section: string, depth: int, now: nat, suffix: string)
      modifies this
      ensures queue == old(queue) + [Full(Event("", Scroll, "", section, None, 0, "", NoMetadata.(depth := depth)), now, suffix)]
      ensures hoverTimers == old(hoverTimers) && sectionTimers == old(sectionTimers)
    {
      Track(Event("", Scroll, "", section, None, 0, "", NoMetadata.(depth := depth)), now, suffix);
    }

    /** `trackForm`: a form event carrying the action. */
    method TrackForm(action: string, field: string, section: string, now: nat, suffix: string)
      modifies this
      ensures queue == old(queue) + [Full(Event("", Form, field, section, None, 0, "", NoMetadata.(action := action)), now, suffix)]
      ensures hoverTimers == old(hoverTimers) && sectionTimers == old(sectionTimers)
    {
      Track(Event("", Form, field, section, None, 0, "", NoMetadata.(action := action)), now, suffix);
    }

    /** `trackHoverStart`: (re)starts the hover timer of the element in the section. */
    method TrackHoverStart(element: string, section: string, now: nat)
      modifies this
      ensures hoverTimers == Put(old(hoverTimers), HoverKey(element, section), now)
      ensures GetOr(hoverTimers, HoverKey(element, section), 0) == now
      ensures queue == old(queue) && sectionTimers == old(sectionTimers)
    {
      hoverTimers := Put(hoverTimers, HoverKey(element, section), now);
    }

    /** `trackHoverEnd`: one hover event with the elapsed time if a timer was running, and the timer goes. */
    method TrackHoverEnd(element: string, section: string, now: nat, suffix: string)
      modifies this
      ensures var key := HoverKey(element, section); var start := GetOr(old(hoverTimers), key, 0);
        && (start != 0 ==>
              && queue == old(queue) + [Full(Event("", Hover, element, section, None, 0, "", NoMetadata.(duration := now - start)), now, suffix)]
              && hoverTimers == Remove(old(hoverTimers), key)
              && key !in Keys(hoverTimers))
        && (start == 0 ==> queue == old(queue) && hoverTimers == old(hoverTimers))
      ensures sectionTimers == old(sectionTimers)
    {
      var key := HoverKey(element, section);
      var startTime := GetOr(hoverTimers, key, 0);
      if startTime != 0 {
        var duration := now - startTime;
        Track(Event("", Hover, element, section, None, 0, "", NoMetadata.(duration := duration)), now, suffix);
        hoverTimers := Remove(hoverTimers, key);
      }
    }

    /**
     * `trackView`: closes the timer of the previously viewed section, if it is another one,
     * with a view event carrying the time spent, then times the new section.
     */
    method TrackView(section: string, now: nat, suffix: string)
      modifies this
      ensures var previous := FirstKey(old(sectionTimers)); var start := GetOr(old(sectionTimers), previous, 0);
        && (previous != "" && previous != section && start != 0 ==>
              queue == old(queue) + [Full(Event("", View, "", previous, None, 0, "", NoMetadata.(timeSpent := now - start)), now, suffix)])
        && (previous == "" || previous == section || start == 0 ==> queue == old(queue))
      ensures GetOr(sectionTimers, section, 0) == now
      ensures OneTimer(old(sectionTimers)) && section != "" && now != 0 ==> sectionTimers == [(section, now)]
      ensures hoverTimers == old(hoverTimers)
    {
      var previousSection := FirstKey(sectionTimers);
      if previousSection != "" && previousSection != section {
        var startTime := GetOr(sectionTimers, previousSection, 0);
        if startTime != 0 {
          var timeSpent := now - startTime;
          Track(Event("", View, "", previousSection, None, 0, "", NoMetadata.(timeSpent := timeSpent)), now, suffix);
          sectionTimers := Remove(sectionTimers, previousSection);
        }
      }
      ghost var before := sectionTimers;
      sectionTimers := Put(sectionTimers, section, now);
      if OneTimer(old(sectionTimers)) && section != "" && now != 0 {
        OneTimerStep(old(sectionTimers), before, section, now);
      }
    }
  }

  /** One `trackView` keeps a single timer: the new section, started now. */
  lemma OneTimerStep(timers: seq<(string, int)>, middle: seq<(string, int)>, section: string, now: nat)
    requires OneTimer(timers) && section != "" && now != 0
    requires var previous := FirstKey(timers);
      middle == if previous != "" && previous != section && GetOr(timers, previous, 0) != 0
                then Remove(timers, previous) else timers
    ensures Put(middle, section, now) == [(section, now)]
  {
    if timers != [] {
      assert Keys(timers) == [timers[0].0];
      assert GetOr(timers, timers[0].0, 0) == timers[0].1;
      if timers[0].0 != section {
        assert middle == Remove(timers, timers[0].0);
        assert Keys(middle) == [];
      } else {
        assert middle == timers;
      }
    }
  }
}
