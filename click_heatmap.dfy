/**
 * The admin click heatmap of src/components/admin/ClickHeatmap.tsx: positioned click events
 * are bucketed into 50-pixel zones, counted per zone key `${x},${y}` in a `forEach` loop,
 * parsed back into points, and summarised (zone count, total clicks, busiest zone, the
 * sections to filter by). The selected section is "" when none is selected.
 */
module ClickHeatmap {
  import opened Wrappers
  import opened Seqs
  import opened Text
  import opened OrderedMap
  import opened AnalyticsEvents
  import opened Aggregator

  /** `e.type === 'click' && e.position`. */
  const PositionedClick: Event -> bool := (e: Event) => e.eventType == Click && e.position.Some?

  /** `clickEvents`: the positioned click events, in log order. */
  function ClickEvents(events: seq<Event>): (r: seq<Event>)
    ensures |r| <= |events|
    ensures forall e :: e in r <==> e in events && e.eventType == Click && e.position.Some?
  {
    FilterMembers(events, PositionedClick);
    Filter(events, PositionedClick)
  }

  const ZoneSize := 50

  /** `Math.floor(c / 50) * 50`: the multiple of 50 at most 49 below the coordinate. */
  function Zone(c: int): (z: int)
    ensures z % ZoneSize == 0 && z <= c < z + ZoneSize
  {
    (c / ZoneSize) * ZoneSize
  }

  /** No other multiple of 50 lies within 49 below the coordinate. */
  lemma ZoneUnique(c: int, z: int)
    requires z % ZoneSize == 0 && z <= c < z + ZoneSize
    ensures z == Zone(c)
  {
    var q := z / ZoneSize;
    assert z == q * ZoneSize;
    assert c / ZoneSize == q by {
      assert q * ZoneSize <= c < (q + 1) * ZoneSize;
    }
  }

  /** `${x},${y}`. */
  function ZoneKey(x: int, y: int): string {
    IntToString(x) + "," + IntToString(y)
  }

  /** `key.split(',').map(Number)` destructured into `[x, y]`, with `None` where `Number` gives NaN. */
  function ParseKey(key: string): (Option<int>, Option<int>) {
    var parts := Split(key, ',');
    (ParseInt(parts[0]), if |parts| > 1 then ParseInt(parts[1]) else None)
  }

  /** Parsing a zone key gives back the pair it was formatted from. */
  lemma KeyRoundTrip(x: int, y: int)
    ensures ParseKey(ZoneKey(x, y)) == (Some(x), Some(y))
  {
    SplitJoin(IntToString(x), IntToString(y), ',');
    assert ZoneKey(x, y) == IntToString(x) + [','] + IntToString(y);
    IntRoundTrip(x);
    IntRoundTrip(y);
  }

  /** The `forEach` guards: a position, and the selected section when one is selected. */
  predicate Counted(e: Event, selected: string) {
    e.position.Some? && (selected == "" || e.section == selected)
  }

  function CountedBy(selected: string): Event -> bool {
    (e: Event) => Counted(e, selected)
  }

  /** The key of the zone a position falls in. */
  function KeyOf(p: Position): string {
    ZoneKey(Zone(p.x), Zone(p.y))
  }

  /** The zone key of every counted event, in order: one key per counted event. */
  function ZoneKeys(events: seq<Event>, selected: string): (r: seq<string>)
    ensures |r| == |Filter(events, CountedBy(selected))|
    decreases |events|
  {
    if events == [] then []
    else
      var init := events[..|events| - 1];
      var e := events[|events| - 1];
      assert events == init + [e];
      if Counted(e, selected) then ZoneKeys(init, selected) + [KeyOf(e.position.value)]
      else ZoneKeys(init, selected)
  }

  /** Every key stems from a counted event. */
  lemma {:induction false} ZoneKeysFromEvents(events: seq<Event>, selected: string, k: string)
    requires k in ZoneKeys(events, selected)
    ensures exists e :: e in events && Counted(e, selected) && KeyOf(e.position.value) == k
    decreases |events|
  {
    var init := events[..|events| - 1];
    var e := events[|events| - 1];
    if !(Counted(e, selected) && KeyOf(e.position.value) == k) {
      ZoneKeysFromEvents(init, selected, k);
      var e' :| e' in init && Counted(e', selected) && KeyOf(e'.position.value) == k;
      assert e' in events;
    }
  }

  lemma ZoneKeysStep(events: seq<Event>, selected: string, i: nat)
    requires i < |events|
    ensures Counted(events[i], selected) ==>
      ZoneKeys(events[..i + 1], selected) == ZoneKeys(events[..i], selected) + [KeyOf(events[i].position.value)]
    ensures !Counted(events[i], selected) ==> ZoneKeys(events[..i + 1], selected) == ZoneKeys(events[..i], selected)
  {
    assert events[..i + 1][..i] == events[..i];
  }

  /** `clickMap`: each counted event adds one to its zone key. */
  method BuildClickMap(clickEvents: seq<Event>, selected: string) returns (clickMap: Counter)
    ensures clickMap == CountMap(ZoneKeys(clickEvents, selected))
  {
    clickMap := [];
    for i := 0 to |clickEvents|
      invariant clickMap == CountMap(ZoneKeys(clickEvents[..i], selected))
    {
      var event := clickEvents[i];
      ZoneKeysStep(clickEvents, selected, i);
      if event.position.None? {
        continue;
      }
      if selected != "" && event.section != selected {
        continue;
      }
      var x := Zone(event.position.value.x);
      var y := Zone(event.position.value.y);
      var key := ZoneKey(x, y);
      CountMapSnoc(ZoneKeys(clickEvents[..i], selected), key);
      clickMap := Bump(clickMap, key, 1);
    }
    assert clickEvents[..|clickEvents|] == clickEvents;
  }

  /** The sum of the counts. */
  function SumCounts(m: Counter): int
    decreases |m|
  {
    if m == [] then 0 else SumCounts(m[..|m| - 1]) + m[|m| - 1].1
  }

  lemma {:induction false} SumCountsUpdate(m: Counter, i: nat, e: (string, int))
    requires i < |m|
    ensures SumCounts(m[i := e]) == SumCounts(m) - m[i].1 + e.1
    decreases |m|
  {
    var u := m[i := e];
    if i < |m| - 1 {
      assert u[..|u| - 1] == m[..|m| - 1][i := e];
      SumCountsUpdate(m[..|m| - 1], i, e);
    } else {
      assert u[..|u| - 1] == m[..|m| - 1];
    }
  }

  /** Adding one to a key's count adds one to the sum. */
  lemma BumpSum(m: Counter, k: string)
    ensures SumCounts(Bump(m, k, 1)) == SumCounts(m) + 1
  {
    if k in Keys(m) {
      var i := IndexOf(m, k);
      assert Bump(m, k, 1) == m[i := (k, m[i].1 + 1)];
      SumCountsUpdate(m, i, (k, m[i].1 + 1));
    } else {
      var r := Bump(m, k, 1);
      assert r == m + [(k, 1)];
      assert r[..|r| - 1] == m;
    }
  }

  lemma {:induction false} CountMapSum(ks: seq<string>)
    ensures SumCounts(CountMap(ks)) == |ks|
    decreases |ks|
  {
    if ks != [] {
      CountMapSum(ks[..|ks| - 1]);
      BumpSum(CountMap(ks[..|ks| - 1]), ks[|ks| - 1]);
    }
  }

  /**
   * The click map holds one zone per distinct key, each with the number of counted events
   * in that zone, and the counts add up to the number of counted events.
   */
  lemma ClickMapMeaning(events: seq<Event>, selected: string)
    ensures var keys := ZoneKeys(events, selected); var m := CountMap(keys);
      && DistinctKeys(m)
      && Keys(m) == Distinct(keys)
      && (forall k :: GetOr(m, k, 0) == Occurrences(keys, k))
      && SumCounts(m) == |Filter(events, CountedBy(selected))|
  {
    var keys := ZoneKeys(events, selected);
    CountMapKeys(keys);
    forall k ensures GetOr(CountMap(keys), k, 0) == Occurrences(keys, k) {
      CountMapCounts(keys, k);
    }
    CountMapSum(keys);
  }

  /** With no section selected, every click event is counted: the zone counts add up to "Total Clicks". */
  lemma AllSectionsCountEveryClick(events: seq<Event>)
    ensures SumCounts(CountMap(ZoneKeys(ClickEvents(events), ""))) == |ClickEvents(events)|
  {
    var clicks := ClickEvents(events);
    ClickMapMeaning(clicks, "");
    FilterAll(clicks, CountedBy(""));
  }

  /** A heat zone as drawn: its coordinates, `None` where `Number` gives NaN, and its count. */
  datatype ClickPoint = ClickPoint(x: Option<int>, y: Option<int>, count: int)

  /** `Object.entries(clickMap).map(...)`: one point per key, in key order. */
  function ClickData(clickMap: Counter): (r: seq<ClickPoint>)
    ensures |r| == |clickMap|
    ensures forall i :: 0 <= i < |r| ==> r[i].count == clickMap[i].1
  {
    seq(|clickMap|, i requires 0 <= i < |clickMap| =>
      var (x, y) := ParseKey(clickMap[i].0);
      ClickPoint(x, y, clickMap[i].1))
  }

  /**
   * Every point of the heatmap is a zone some counted event fell in: its coordinates parse,
   * are multiples of 50, and its count is the number of counted events in the zone.
   */
  lemma ClickDataMeaning(events: seq<Event>, selected: string, i: nat)
    requires i < |ClickData(CountMap(ZoneKeys(events, selected)))|
    ensures var keys := ZoneKeys(events, selected); var p := ClickData(CountMap(keys))[i];
      && p.x.Some? && p.y.Some?
      && p.x.value % ZoneSize == 0 && p.y.value % ZoneSize == 0
      && (exists e :: e in events && Counted(e, selected) && Zone(e.position.value.x) == p.x.value && Zone(e.position.value.y) == p.y.value)
      && p.count == Occurrences(keys, ZoneKey(p.x.value, p.y.value))
  {
    var keys := ZoneKeys(events, selected);
    var m := CountMap(keys);
    ClickMapMeaning(events, selected);
    var k := m[i].0;
    assert k == Keys(m)[i];
    assert k in keys;
    ZoneKeysFromEvents(events, selected, k);
    var e :| e in events && Counted(e, selected) && KeyOf(e.position.value) == k;
    var x, y := Zone(e.position.value.x), Zone(e.position.value.y);
    KeyRoundTrip(x, y);
    GetOrEntry(m, i, 0);
  }

  /** `Math.max(...counts, 1)`. */
  function MaxClicks(points: seq<ClickPoint>): (r: int)
    ensures r >= 1
    ensures forall i :: 0 <= i < |points| ==> points[i].count <= r
    ensures r == 1 || exists i :: 0 <= i < |points| && points[i].count == r
    decreases |points|
  {
    if points == [] then 1
    else
      var rest := MaxClicks(points[..|points| - 1]);
      var last := points[|points| - 1].count;
      assert forall i :: 0 <= i < |points| - 1 ==> points[..|points| - 1][i] == points[i];
      if last > rest then last else rest
  }

  predicate HasSection(events: seq<Event>, s: string) {
    exists e :: e in events && e.section == s
  }

  /** `clickEvents.map(e => e.section).filter(Boolean)`. */
  function NamedSections(clickEvents: seq<Event>): (r: seq<string>)
    ensures forall s :: s in r <==> s != "" && HasSection(clickEvents, s)
    decreases |clickEvents|
  {
    if clickEvents == [] then []
    else
      var init := clickEvents[..|clickEvents| - 1];
      var e := clickEvents[|clickEvents| - 1];
      assert clickEvents == init + [e];
      var prev := NamedSections(init);
      assert forall s :: HasSection(clickEvents, s) <==> HasSection(init, s) || e.section == s by {
        forall s ensures HasSection(clickEvents, s) <==> HasSection(init, s) || e.section == s {
          if HasSection(init, s) {
            var e' :| e' in init && e'.section == s;
            assert e' in clickEvents;
          }
        }
      }
      if e.section != "" then prev + [e.section] else prev
  }

  /** `Array.from(new Set(...))` over the named sections: each once, in first-seen order. */
  function SectionList(clickEvents: seq<Event>): (r: seq<string>)
    ensures NoDups(r)
    ensures forall s :: s in r <==> s != "" && HasSection(clickEvents, s)
  {
    Distinct(NamedSections(clickEvents))
  }

  /** What the heatmap card shows. */
  datatype Heatmap = Heatmap(points: seq<ClickPoint>, maxClicks: int, totalClicks: int, sections: seq<string>)

  /**
   * The whole card for a log and a selection: the zones of the selected clicks, the busiest
   * zone's count, and the click total and section list of all clicks whatever the selection.
   */
  method Render(events: seq<Event>, selected: string) returns (h: Heatmap)
    ensures h.points == ClickData(CountMap(ZoneKeys(ClickEvents(events), selected)))
    ensures h.maxClicks >= 1 && forall i :: 0 <= i < |h.points| ==> h.points[i].count <= h.maxClicks
    ensures h.totalClicks == |ClickEvents(events)|
    ensures NoDups(h.sections)
    ensures forall s :: s in h.sections <==> s != "" && HasSection(ClickEvents(events), s)
  {
    var clickEvents := ClickEvents(events);
    var clickMap := BuildClickMap(clickEvents, selected);
    var points := ClickData(clickMap);
    h := Heatmap(points, MaxClicks(points), |clickEvents|, SectionList(clickEvents));
  }
}
