/**
 * The analytics log of server/index.js: POST /api/analytics/track appends a stamped
 * event, updates that visitor's session and re-aggregates; GET /api/analytics/data
 * returns the filtered events with the sessions and the aggregate. The JSON file is
 * replaced by fields of a store object; the clock and the random id suffix are parameters.
 */
module EventStore {
  import opened Wrappers
  import opened Seqs
  import opened Text
  import opened AnalyticsEvents
  import opened Aggregator
  import SessionGate

  datatype Session = Session(id: string, startTime: int, endTime: int, sections: seq<string>, interactions: int)

  // ---- Sessions: the per-event update and what it adds up to ----

  /** `sessions.find(s => s.id === id)`, as a position. */
  function FindSession(sessions: seq<Session>, id: string): (r: Option<nat>)
    ensures r.Some? ==> r.value < |sessions| && sessions[r.value].id == id
    ensures r.Some? ==> forall j :: 0 <= j < r.value ==> sessions[j].id != id
    ensures r.None? ==> forall j :: 0 <= j < |sessions| ==> sessions[j].id != id
    decreases |sessions|
  {
    if sessions == [] then None
    else if sessions[0].id == id then Some(0)
    else match FindSession(sessions[1..], id)
      case None => None
      case Some(j) => Some(j + 1)
  }

  /** The session after one more event: end time raised, one more interaction, a new truthy section added. */
  function Touch(s: Session, e: Event): Session {
    s.(endTime := Max(s.endTime, e.timestamp),
       interactions := s.interactions + 1,
       sections := if e.section != "" then AppendIfAbsent(s.sections, e.section) else s.sections)
  }

  /** What the track route does to the session list for an accepted event. */
  function RecordSession(sessions: seq<Session>, e: Event): seq<Session> {
    match FindSession(sessions, e.sessionId)
    case Some(i) => sessions[i := Touch(sessions[i], e)]
    case None => sessions + [Touch(Session(e.sessionId, e.timestamp, e.timestamp, [], 0), e)]
  }

  /** The session list the server holds after accepting `events` in order. */
  function SessionsOf(events: seq<Event>): seq<Session>
    decreases |events|
  {
    if events == [] then [] else RecordSession(SessionsOf(events[..|events| - 1]), events[|events| - 1])
  }

  // ---- Reference definitions: a session summarised from its own events ----

  /** An event of the visitor `id`. */
  function InSession(id: string): Event -> bool {
    (e: Event) => e.sessionId == id
  }

  /** The largest timestamp among `events`. */
  function LatestTimestamp(events: seq<Event>): (t: int)
    requires events != []
    ensures forall i :: 0 <= i < |events| ==> events[i].timestamp <= t
    ensures exists i :: 0 <= i < |events| && events[i].timestamp == t
    decreases |events|
  {
    if |events| == 1 then events[0].timestamp
    else
      var init := events[..|events| - 1];
      var t := Max(LatestTimestamp(init), events[|events| - 1].timestamp);
      assert forall i :: 0 <= i < |init| ==> events[i] == init[i];
      t
  }

  /** The truthy sections of `events`, in order. */
  function SectionsVisited(events: seq<Event>): seq<string>
    decreases |events|
  {
    if events == [] then []
    else
      var prev := SectionsVisited(events[..|events| - 1]);
      var s := events[|events| - 1].section;
      if s != "" then prev + [s] else prev
  }

  /**
   * The session of a visitor whose events are `events`: opened at the first event's
   * timestamp, closed at the latest, with one interaction per event and each truthy
   * section once, in order of first visit.
   */
  function Summary(id: string, events: seq<Event>): Session
    requires events != []
  {
    Session(id, events[0].timestamp, LatestTimestamp(events), Distinct(SectionsVisited(events)), |events|)
  }

  function SessionIds(sessions: seq<Session>): (ids: seq<string>)
    ensures |ids| == |sessions|
    ensures forall i :: 0 <= i < |sessions| ==> ids[i] == sessions[i].id
  {
    seq(|sessions|, i requires 0 <= i < |sessions| => sessions[i].id)
  }

  /** The visitor ids of `events` in order of first appearance. */
  function VisitorIds(events: seq<Event>): (ids: seq<string>)
    ensures NoDups(ids)
    ensures forall id :: id in ids <==> Filter(events, InSession(id)) != []
    decreases |events|
  {
    if events == [] then [] else AppendIfAbsent(VisitorIds(events[..|events| - 1]), events[|events| - 1].sessionId)
  }

  // ---- The session list is the summary of each visitor's events ----

  lemma FindAfterUpdate(sessions: seq<Session>, i: nat, s: Session, id: string)
    requires i < |sessions| && s.id == sessions[i].id
    ensures FindSession(sessions[i := s], id) == FindSession(sessions, id)
    decreases |sessions|
  {
    if i > 0 {
      assert sessions[i := s][1..] == sessions[1..][i - 1 := s];
      FindAfterUpdate(sessions[1..], i - 1, s, id);
    }
  }

  lemma FindAfterAppend(sessions: seq<Session>, s: Session, id: string)
    ensures FindSession(sessions + [s], id) ==
      if FindSession(sessions, id).Some? then FindSession(sessions, id)
      else if s.id == id then Some(|sessions|)
      else None
    decreases |sessions|
  {
    if sessions != [] {
      assert (sessions + [s])[1..] == sessions[1..] + [s];
      FindAfterAppend(sessions[1..], s, id);
    }
  }

  lemma LatestSnoc(events: seq<Event>, e: Event)
    requires events != []
    ensures LatestTimestamp(events + [e]) == Max(LatestTimestamp(events), e.timestamp)
  {
    assert (events + [e])[..|events|] == events;
  }

  lemma SectionsVisitedSnoc(events: seq<Event>, e: Event)
    ensures SectionsVisited(events + [e]) == if e.section != "" then SectionsVisited(events) + [e.section] else SectionsVisited(events)
  {
    assert (events + [e])[..|events|] == events;
  }

  lemma DistinctSnoc(s: seq<string>, x: string)
    ensures Distinct(s + [x]) == AppendIfAbsent(Distinct(s), x)
  {
    assert (s + [x])[..|s|] == s;
  }

  /** One more event of a known visitor: the track route's update agrees with the summary. */
  lemma SummarySnoc(id: string, mine: seq<Event>, e: Event)
    requires mine != []
    ensures Summary(id, mine + [e]) == Touch(Summary(id, mine), e)
  {
    LatestSnoc(mine, e);
    SectionsVisitedSnoc(mine, e);
    DistinctSnoc(SectionsVisited(mine), e.section);
  }

  /** The first event of a new visitor: the session the track route opens agrees with the summary. */
  lemma SummaryFirst(id: string, e: Event)
    ensures Summary(id, [e]) == Touch(Session(id, e.timestamp, e.timestamp, [], 0), e)
  {
    SectionsVisitedSnoc([], e);
    assert [] + [e] == [e];
    DistinctSnoc([], e.section);
  }

  /** The sessions list one session per visitor, in order of each visitor's first event. */
  lemma {:induction false} SessionIdsAreVisitors(events: seq<Event>)
    ensures SessionIds(SessionsOf(events)) == VisitorIds(events)
    decreases |events|
  {
    if events != [] {
      var init := events[..|events| - 1];
      var e := events[|events| - 1];
      SessionIdsAreVisitors(init);
      var ss := SessionsOf(init);
      match FindSession(ss, e.sessionId)
      case Some(i) =>
        assert SessionIds(ss)[i] == e.sessionId;
        assert SessionIds(ss[i := Touch(ss[i], e)]) == SessionIds(ss);
      case None =>
        assert e.sessionId !in SessionIds(ss);
        assert SessionIds(ss + [Touch(Session(e.sessionId, e.timestamp, e.timestamp, [], 0), e)]) == SessionIds(ss) + [e.sessionId];
    }
  }

  /**
   * A visitor has a session exactly when some accepted event carries its id, and that
   * session is the summary of the visitor's events: first timestamp, latest timestamp,
   * distinct truthy sections in order of first visit, and one interaction per event.
   */
  lemma {:induction false} SessionIsSummary(events: seq<Event>, id: string)
    ensures var ss := SessionsOf(events); var mine := Filter(events, InSession(id));
      && (FindSession(ss, id).Some? <==> mine != [])
      && (mine != [] ==> ss[FindSession(ss, id).value] == Summary(id, mine))
    decreases |events|
  {
    if events != [] {
      var init := events[..|events| - 1];
      var e := events[|events| - 1];
      SessionIsSummary(init, id);
      var ss0 := SessionsOf(init);
      var mine0 := Filter(init, InSession(id));
      var first := Touch(Session(e.sessionId, e.timestamp, e.timestamp, [], 0), e);
      match FindSession(ss0, e.sessionId)
      case Some(i) =>
        FindAfterUpdate(ss0, i, Touch(ss0[i], e), id);
        if e.sessionId == id {
          SummarySnoc(id, mine0, e);
        }
      case None =>
        FindAfterAppend(ss0, first, id);
        if e.sessionId == id {
          assert mine0 == [];
          assert Filter(events, InSession(id)) == [e];
          SummaryFirst(id, e);
        }
    }
  }

  // ---- POST /api/analytics/track ----

  /** A missing (falsy) timestamp becomes the clock; a missing id becomes `${now}-${suffix}`. */
  function Stamped(e: Event, now: nat, suffix: string): (r: Event)
    ensures r.(id := e.id, timestamp := e.timestamp) == e
    ensures r.id != ""
    ensures now != 0 ==> r.timestamp != 0
    ensures e.id != "" ==> r.id == e.id
    ensures e.timestamp != 0 ==> r.timestamp == e.timestamp
  {
    e.(timestamp := if e.timestamp == 0 then now else e.timestamp,
       id := if e.id == "" then Stamp(now, suffix) else e.id)
  }

  /** Re-submitting a stored event stores it unchanged: stamping is idempotent while the clock is positive. */
  lemma StampedIdempotent(e: Event, now: nat, suffix: string, later: nat, suffix': string)
    requires now != 0
    ensures Stamped(Stamped(e, now, suffix), later, suffix') == Stamped(e, now, suffix)
  {
  }

  /** Two events stamped with fresh ids get the same id only from the same clock reading and suffix. */
  lemma StampedIdsDistinct(e1: Event, e2: Event, n1: nat, s1: string, n2: nat, s2: string)
    requires e1.id == "" && e2.id == ""
    requires Stamped(e1, n1, s1).id == Stamped(e2, n2, s2).id
    ensures n1 == n2 && s1 == s2
  {
    StampInjective(n1, s1, n2, s2);
  }

  datatype TrackReply = Tracked | InvalidEvent

  // ---- GET /api/analytics/data ----

  /** A date query parameter after `parseInt`: absent or empty, a number, or NaN. */
  datatype DateParam = NoDate | Date(ms: int) | NotANumber

  /** The query string; an empty `eventType` or `section` is an absent one. */
  datatype Filters = Filters(startDate: DateParam, endDate: DateParam, eventType: string, section: string)

  const NoFilters := Filters(NoDate, NoDate, "", "")

  /** The event passes every filter the query gives (NaN compares false with every timestamp). */
  predicate Matches(f: Filters, e: Event) {
    && (match f.startDate case NoDate => true case Date(t) => e.timestamp >= t case NotANumber => false)
    && (match f.endDate case NoDate => true case Date(t) => e.timestamp <= t case NotANumber => false)
    && (f.eventType == "" || e.eventType == f.eventType)
    && (f.section == "" || e.section == f.section)
  }

  function MatchesAll(f: Filters): Event -> bool {
    (e: Event) => Matches(f, e)
  }

  function StartOk(d: DateParam): Event -> bool {
    (e: Event) => match d case NoDate => true case Date(t) => e.timestamp >= t case NotANumber => false
  }

  function EndOk(d: DateParam): Event -> bool {
    (e: Event) => match d case NoDate => true case Date(t) => e.timestamp <= t case NotANumber => false
  }

  function TypeIs(t: string): Event -> bool {
    (e: Event) => e.eventType == t
  }

  function SectionIs(s: string): Event -> bool {
    (e: Event) => e.section == s
  }

  /** `if (param) list = list.filter(p)`. */
  function Stage(s: seq<Event>, used: bool, p: Event -> bool): seq<Event> {
    if used then Filter(s, p) else s
  }

  /** The route's chain of filters, each applied only when its parameter is truthy. */
  function QueryEvents(events: seq<Event>, f: Filters): seq<Event> {
    var a := Stage(events, !f.startDate.NoDate?, StartOk(f.startDate));
    var b := Stage(a, !f.endDate.NoDate?, EndOk(f.endDate));
    var c := Stage(b, f.eventType != "", TypeIs(f.eventType));
    Stage(c, f.section != "", SectionIs(f.section))
  }

  /** The event passes a stage: the stage is off or its predicate holds. */
  function Pass(used: bool, p: Event -> bool): Event -> bool {
    (e: Event) => !used || p(e)
  }

  function Both(p: Event -> bool, q: Event -> bool): Event -> bool {
    (e: Event) => p(e) && q(e)
  }

  lemma StageFirst(s: seq<Event>, used: bool, p: Event -> bool)
    ensures Stage(s, used, p) == Filter(s, Pass(used, p))
  {
    if used {
      FilterExt(s, p, Pass(used, p));
    } else {
      FilterAll(s, Pass(used, p));
    }
  }

  lemma StageNext(s: seq<Event>, soFar: Event -> bool, used: bool, p: Event -> bool)
    ensures Stage(Filter(s, soFar), used, p) == Filter(s, Both(soFar, Pass(used, p)))
  {
    StageFirst(Filter(s, soFar), used, p);
    FilterFilter(s, soFar, Pass(used, p), Both(soFar, Pass(used, p)));
  }

  /** The four stages of the chain, as one predicate. */
  function AllStages(f: Filters): Event -> bool {
    var p1 := Pass(!f.startDate.NoDate?, StartOk(f.startDate));
    var p2 := Both(p1, Pass(!f.endDate.NoDate?, EndOk(f.endDate)));
    var p3 := Both(p2, Pass(f.eventType != "", TypeIs(f.eventType)));
    Both(p3, Pass(f.section != "", SectionIs(f.section)))
  }

  lemma QueryStages(events: seq<Event>, f: Filters)
    ensures QueryEvents(events, f) == Filter(events, AllStages(f))
  {
    var p1 := Pass(!f.startDate.NoDate?, StartOk(f.startDate));
    var p2 := Both(p1, Pass(!f.endDate.NoDate?, EndOk(f.endDate)));
    var p3 := Both(p2, Pass(f.eventType != "", TypeIs(f.eventType)));
    var a := Stage(events, !f.startDate.NoDate?, StartOk(f.startDate));
    assert a == Filter(events, p1) by {
      StageFirst(events, !f.startDate.NoDate?, StartOk(f.startDate));
    }
    var b := Stage(a, !f.endDate.NoDate?, EndOk(f.endDate));
    assert b == Filter(events, p2) by {
      StageNext(events, p1, !f.endDate.NoDate?, EndOk(f.endDate));
    }
    var c := Stage(b, f.eventType != "", TypeIs(f.eventType));
    assert c == Filter(events, p3) by {
      StageNext(events, p2, f.eventType != "", TypeIs(f.eventType));
    }
    StageNext(events, p3, f.section != "", SectionIs(f.section));
  }

  /** The chained filters keep exactly the events that match the whole query, in log order. */
  lemma QueryIsFilter(events: seq<Event>, f: Filters)
    ensures QueryEvents(events, f) == Filter(events, MatchesAll(f))
  {
    QueryStages(events, f);
    assert forall e :: AllStages(f)(e) == MatchesAll(f)(e);
    FilterExt(events, AllStages(f), MatchesAll(f));
  }

  /** Without query parameters the route returns the whole log. */
  lemma NoFiltersKeepAll(events: seq<Event>)
    ensures QueryEvents(events, NoFilters) == events
  {
  }

  datatype AnalyticsData = AnalyticsData(
    events: seq<Event>,
    sessions: seq<Session>,
    aggregated: Aggregate,
    totalEvents: nat,
    totalSessions: nat)

  datatype Reply<T> = Ok(value: T) | Unauthorized

  /** The analytics file: the event log, the sessions and the aggregate kept beside it. */
  class AnalyticsLog {
    var events: seq<Event>
    var sessions: seq<Session>
    var aggregated: Aggregate

    /** The sessions and the aggregate are always those of the log. */
    ghost predicate Valid()
      reads this
    {
      sessions == SessionsOf(events) && aggregated == AggregateOf(events)
    }

    /** `initDataFile`: an empty log. */
    constructor ()
      ensures Valid()
      ensures events == [] && sessions == [] && aggregated == EmptyAggregate
    {
      events := [];
      sessions := [];
      aggregated := EmptyAggregate;
    }

    /** POST /api/analytics/track with body `body`, at clock `now`, with random id suffix `suffix`. */
    method Track(body: Event, now: nat, suffix: string) returns (r: TrackReply)
      requires Valid()
      modifies this
      ensures Valid()
      ensures body.eventType == "" || body.sessionId == "" ==> r == InvalidEvent && events == old(events)
      ensures body.eventType != "" && body.sessionId != "" ==>
        r == Tracked && events == old(events) + [Stamped(body, now, suffix)]
    {
      if body.eventType == "" || body.sessionId == "" {
        return InvalidEvent;
      }
      var e := body;
      if e.timestamp == 0 {
        e := e.(timestamp := now);
      }
      if e.id == "" {
        e := e.(id := Stamp(now, suffix));
      }
      events := events + [e];
      assert events[..|events| - 1] == old(events);
      TouchSession(e);
      aggregated := AggregateData(events);
      r := Tracked;
    }

    /** Opens the event's session if the visitor is new, then records the event in it. */
    method TouchSession(e: Event)
      modifies this
      ensures sessions == RecordSession(old(sessions), e)
      ensures events == old(events) && aggregated == old(aggregated)
    {
      var found := FindSession(sessions, e.sessionId);
      var i: nat;
      if found.None? {
        sessions := sessions + [Session(e.sessionId, e.timestamp, e.timestamp, [], 0)];
        i := |sessions| - 1;
      } else {
        i := found.value;
      }
      var session := sessions[i];
      session := session.(endTime := Max(session.endTime, e.timestamp), interactions := session.interactions + 1);
      if e.section != "" && e.section !in session.sections {
        session := session.(sections := session.sections + [e.section]);
      }
      sessions := sessions[i := session];
      if found.None? {
        assert sessions == old(sessions) + [session];
      }
    }

    /** GET /api/analytics/data behind `requireAuth`. */
    method Data(gate: SessionGate.Gate, cookie: string, f: Filters) returns (r: Reply<AnalyticsData>)
      ensures gate.Authorized(cookie) ==> r == Ok(AnalyticsData(QueryEvents(events, f), sessions, aggregated, |events|, |sessions|))
      ensures !gate.Authorized(cookie) ==> r == Unauthorized
    {
      if cookie == "" || cookie !in gate.tokens {
        return Unauthorized;
      }
      var filtered := events;
      if !f.startDate.NoDate? {
        filtered := Filter(filtered, StartOk(f.startDate));
      }
      if !f.endDate.NoDate? {
        filtered := Filter(filtered, EndOk(f.endDate));
      }
      if f.eventType != "" {
        filtered := Filter(filtered, TypeIs(f.eventType));
      }
      if f.section != "" {
        filtered := Filter(filtered, SectionIs(f.section));
      }
      r := Ok(AnalyticsData(filtered, sessions, aggregated, |events|, |sessions|));
    }
  }

  /** `totalSessions` is the number of distinct visitors in the log. */
  lemma TotalSessionsAreVisitors(events: seq<Event>)
    ensures |SessionsOf(events)| == |VisitorIds(events)|
  {
    SessionIdsAreVisitors(events);
  }
}
