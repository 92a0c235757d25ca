/**
 * `aggregateData` of server/index.js: one pass over the event log filling four
 * counter objects, then the twenty most clicked elements.
 */
module Aggregator {
  import opened Seqs
  import opened OrderedMap
  import opened StableSort
  import opened AnalyticsEvents

  /** A JavaScript object from section or element names to numbers, in insertion order. */
  type Counter = seq<(string, int)>

  datatype PopularElement = PopularElement(element: string, count: int)

  datatype Aggregate = Aggregate(
    clicksByElement: Counter,
    clicksBySection: Counter,
    scrollDepth: Counter,
    timeOnSection: Counter,
    popularElements: seq<PopularElement>)

  const EmptyAggregate := Aggregate([], [], [], [], [])

  const PopularLimit := 20

  // ---- What each counter is built from: projections of the event log ----

  /** The truthy `element` of every click event, in log order. */
  function ClickElements(events: seq<Event>): (r: seq<string>)
    ensures forall el :: el in r ==> el != ""
    decreases |events|
  {
    if events == [] then []
    else
      var e := events[|events| - 1];
      var prev := ClickElements(events[..|events| - 1]);
      if e.eventType == Click && e.element != "" then prev + [e.element] else prev
  }

  /** The truthy `section` of every click event, in log order. */
  function ClickSections(events: seq<Event>): (r: seq<string>)
    ensures forall s :: s in r ==> s != ""
    decreases |events|
  {
    if events == [] then []
    else
      var e := events[|events| - 1];
      var prev := ClickSections(events[..|events| - 1]);
      if e.eventType == Click && e.section != "" then prev + [e.section] else prev
  }

  /** A scroll event with a truthy section and a truthy depth. */
  predicate IsDepthSample(e: Event) {
    e.eventType == Scroll && e.section != "" && e.metadata.depth != 0
  }

  /** A view event with a truthy section and a truthy time spent. */
  predicate IsTimeSample(e: Event) {
    e.eventType == View && e.section != "" && e.metadata.timeSpent != 0
  }

  /** (section, depth) of every scroll event that carries both. */
  function ScrollSamples(events: seq<Event>): seq<(string, int)>
    decreases |events|
  {
    if events == [] then []
    else
      var e := events[|events| - 1];
      var prev := ScrollSamples(events[..|events| - 1]);
      if IsDepthSample(e) then prev + [(e.section, e.metadata.depth)] else prev
  }

  /** (section, time spent) of every view event that carries both. */
  function ViewSamples(events: seq<Event>): seq<(string, int)>
    decreases |events|
  {
    if events == [] then []
    else
      var e := events[|events| - 1];
      var prev := ViewSamples(events[..|events| - 1]);
      if IsTimeSample(e) then prev + [(e.section, e.metadata.timeSpent)] else prev
  }

  function Max(a: int, b: int): int {
    if a >= b then a else b
  }

  /** `m[k] = (m[k] || 0) + delta`. */
  function Bump(m: Counter, k: string, delta: int): Counter {
    Put(m, k, GetOr(m, k, 0) + delta)
  }

  /** `m[k] = Math.max(m[k] || 0, v)`. */
  function Raise(m: Counter, k: string, v: int): Counter {
    Put(m, k, Max(GetOr(m, k, 0), v))
  }

  /** `m[k] = (m[k] || 0) + 1` for each key in turn. */
  function CountMap(ks: seq<string>): Counter
    decreases |ks|
  {
    if ks == [] then []
    else
      var prev := CountMap(ks[..|ks| - 1]);
      var k := ks[|ks| - 1];
      Bump(prev, k, 1)
  }

  /** `m[k] = Math.max(m[k] || 0, v)` for each sample in turn. */
  function MaxMap(ps: seq<(string, int)>): Counter
    decreases |ps|
  {
    if ps == [] then []
    else
      var prev := MaxMap(ps[..|ps| - 1]);
      var (k, v) := ps[|ps| - 1];
      Raise(prev, k, v)
  }

  /** `m[k] = (m[k] || 0) + v` for each sample in turn. */
  function SumMap(ps: seq<(string, int)>): Counter
    decreases |ps|
  {
    if ps == [] then []
    else
      var prev := SumMap(ps[..|ps| - 1]);
      var (k, v) := ps[|ps| - 1];
      Bump(prev, k, v)
  }

  function CountOf(p: PopularElement): int {
    p.count
  }

  /** `Object.entries(clicksByElement).map(...)`: one entry per key, in key order. */
  function Entries(m: Counter): (r: seq<PopularElement>)
    ensures |r| == |m|
    ensures forall i :: 0 <= i < |m| ==> r[i] == PopularElement(m[i].0, m[i].1)
  {
    seq(|m|, i requires 0 <= i < |m| => PopularElement(m[i].0, m[i].1))
  }

  /** `.sort((a, b) => b.count - a.count).slice(0, 20)`. */
  function PopularElements(clicksByElement: Counter): seq<PopularElement> {
    var sorted := SortDesc(Entries(clicksByElement), CountOf);
    if |sorted| <= PopularLimit then sorted else sorted[..PopularLimit]
  }

  /** The whole aggregate of a log, as `aggregateData` must compute it. */
  function AggregateOf(events: seq<Event>): Aggregate {
    var byElement := CountMap(ClickElements(events));
    Aggregate(
      byElement,
      CountMap(ClickSections(events)),
      MaxMap(ScrollSamples(events)),
      SumMap(ViewSamples(events)),
      PopularElements(byElement))
  }

  // How each projection grows by one event.

  lemma ClickElementsStep(events: seq<Event>, i: nat)
    requires i < |events|
    ensures var e := events[i];
      ClickElements(events[..i + 1]) == if e.eventType == Click && e.element != "" then ClickElements(events[..i]) + [e.element] else ClickElements(events[..i])
  {
    assert events[..i + 1][..i] == events[..i];
  }

  lemma ClickSectionsStep(events: seq<Event>, i: nat)
    requires i < |events|
    ensures var e := events[i];
      ClickSections(events[..i + 1]) == if e.eventType == Click && e.section != "" then ClickSections(events[..i]) + [e.section] else ClickSections(events[..i])
  {
    assert events[..i + 1][..i] == events[..i];
  }

  lemma ScrollSamplesStep(events: seq<Event>, i: nat)
    requires i < |events|
    ensures var e := events[i];
      ScrollSamples(events[..i + 1]) == if IsDepthSample(e) then ScrollSamples(events[..i]) + [(e.section, e.metadata.depth)] else ScrollSamples(events[..i])
  {
    assert events[..i + 1][..i] == events[..i];
  }

  lemma ViewSamplesStep(events: seq<Event>, i: nat)
    requires i < |events|
    ensures var e := events[i];
      ViewSamples(events[..i + 1]) == if IsTimeSample(e) then ViewSamples(events[..i]) + [(e.section, e.metadata.timeSpent)] else ViewSamples(events[..i])
  {
    assert events[..i + 1][..i] == events[..i];
  }

  lemma CountMapSnoc(ks: seq<string>, k: string)
    ensures CountMap(ks + [k]) == Bump(CountMap(ks), k, 1)
  {
    assert (ks + [k])[..|ks|] == ks;
  }

  lemma MaxMapSnoc(ps: seq<(string, int)>, k: string, v: int)
    ensures MaxMap(ps + [(k, v)]) == Raise(MaxMap(ps), k, v)
  {
    assert (ps + [(k, v)])[..|ps|] == ps;
  }

  lemma SumMapSnoc(ps: seq<(string, int)>, k: string, v: int)
    ensures SumMap(ps + [(k, v)]) == Bump(SumMap(ps), k, v)
  {
    assert (ps + [(k, v)])[..|ps|] == ps;
  }

  /** One more event updates the element counter the way the loop body does. */
  lemma ElementsStep(events: seq<Event>, i: nat)
    requires i < |events|
    ensures var e := events[i]; var m := CountMap(ClickElements(events[..i]));
      CountMap(ClickElements(events[..i + 1])) == if e.eventType == Click && e.element != "" then Bump(m, e.element, 1) else m
  {
    ClickElementsStep(events, i);
    CountMapSnoc(ClickElements(events[..i]), events[i].element);
  }

  lemma SectionsStep(events: seq<Event>, i: nat)
    requires i < |events|
    ensures var e := events[i]; var m := CountMap(ClickSections(events[..i]));
      CountMap(ClickSections(events[..i + 1])) == if e.eventType == Click && e.section != "" then Bump(m, e.section, 1) else m
  {
    ClickSectionsStep(events, i);
    CountMapSnoc(ClickSections(events[..i]), events[i].section);
  }

  lemma DepthStep(events: seq<Event>, i: nat)
    requires i < |events|
    ensures var e := events[i]; var m := MaxMap(ScrollSamples(events[..i]));
      MaxMap(ScrollSamples(events[..i + 1])) == if IsDepthSample(e) then Raise(m, e.section, e.metadata.depth) else m
  {
    ScrollSamplesStep(events, i);
    MaxMapSnoc(ScrollSamples(events[..i]), events[i].section, events[i].metadata.depth);
  }

  lemma TimeStep(events: seq<Event>, i: nat)
    requires i < |events|
    ensures var e := events[i]; var m := SumMap(ViewSamples(events[..i]));
      SumMap(ViewSamples(events[..i + 1])) == if IsTimeSample(e) then Bump(m, e.section, e.metadata.timeSpent) else m
  {
    ViewSamplesStep(events, i);
    SumMapSnoc(ViewSamples(events[..i]), events[i].section, events[i].metadata.timeSpent);
  }

  /** The single pass of `aggregateData` over the log. */
  method AggregateData(events: seq<Event>) returns (agg: Aggregate)
    ensures agg == AggregateOf(events)
  {
    var byElement: Counter := [];
    var bySection: Counter := [];
    var depth: Counter := [];
    var time: Counter := [];
    for i := 0 to |events|
      invariant byElement == CountMap(ClickElements(events[..i]))
      invariant bySection == CountMap(ClickSections(events[..i]))
      invariant depth == MaxMap(ScrollSamples(events[..i]))
      invariant time == SumMap(ViewSamples(events[..i]))
    {
      var e := events[i];
      ElementsStep(events, i);
      SectionsStep(events, i);
      DepthStep(events, i);
      TimeStep(events, i);
      if e.eventType == Click {
        if e.element != "" {
          byElement := Bump(byElement, e.element, 1);
        }
        if e.section != "" {
          bySection := Bump(bySection, e.section, 1);
        }
      } else if e.eventType == Scroll {
        if e.section != "" && e.metadata.depth != 0 {
          depth := Raise(depth, e.section, e.metadata.depth);
        }
      } else if e.eventType == View {
        if e.section != "" && e.metadata.timeSpent != 0 {
          time := Bump(time, e.section, e.metadata.timeSpent);
        }
      }
    }
    assert events[..|events|] == events;
    agg := Aggregate(byElement, bySection, depth, time, PopularElements(byElement));
  }

  // ---- What the counters mean ----

  /** A counter built by `m[k] = (m[k] || 0) + 1` holds every key once, in first-seen order... */
  lemma {:induction false} CountMapKeys(ks: seq<string>)
    ensures DistinctKeys(CountMap(ks))
    ensures Keys(CountMap(ks)) == Distinct(ks)
    decreases |ks|
  {
    if ks != [] {
      CountMapKeys(ks[..|ks| - 1]);
    }
  }

  /** ... with its number of occurrences. */
  lemma {:induction false} CountMapCounts(ks: seq<string>, k: string)
    ensures GetOr(CountMap(ks), k, 0) == Occurrences(ks, k)
    decreases |ks|
  {
    if ks != [] {
      CountMapCounts(ks[..|ks| - 1], k);
    }
  }

  /** A counter built by `m[k] = Math.max(m[k] || 0, v)` holds every sampled key once, in first-seen order... */
  lemma {:induction false} MaxMapKeys(ps: seq<(string, int)>)
    ensures DistinctKeys(MaxMap(ps))
    ensures Keys(MaxMap(ps)) == Distinct(Keys(ps))
    decreases |ps|
  {
    if ps != [] {
      var init := ps[..|ps| - 1];
      assert Keys(ps) == Keys(init) + [ps[|ps| - 1].0];
      MaxMapKeys(init);
    }
  }

  /** ... with a value that is at least 0 and every sample for the key, and is 0 or one of those samples. */
  lemma {:induction false} MaxMapBounds(ps: seq<(string, int)>, k: string)
    ensures GetOr(MaxMap(ps), k, 0) >= 0
    ensures forall i :: 0 <= i < |ps| && ps[i].0 == k ==> GetOr(MaxMap(ps), k, 0) >= ps[i].1
    ensures GetOr(MaxMap(ps), k, 0) == 0 || (k, GetOr(MaxMap(ps), k, 0)) in ps
    decreases |ps|
  {
    if ps != [] {
      var init := ps[..|ps| - 1];
      var (k0, v0) := ps[|ps| - 1];
      assert ps == init + [(k0, v0)];
      MaxMapBounds(init, k);
      var before := GetOr(MaxMap(init), k, 0);
      var after := GetOr(MaxMap(ps), k, 0);
      assert after == if k == k0 then Max(before, v0) else before;
      assert after >= before;
      forall i | 0 <= i < |ps| && ps[i].0 == k ensures after >= ps[i].1 {
        if i < |init| {
          assert ps[i] == init[i];
        }
      }
      assert after == 0 || (k, after) in init || (k, after) == (k0, v0);
    }
  }

  /** The sum of the samples for `k`. */
  function Total(ps: seq<(string, int)>, k: string): int
    decreases |ps|
  {
    if ps == [] then 0
    else Total(ps[..|ps| - 1], k) + (if ps[|ps| - 1].0 == k then ps[|ps| - 1].1 else 0)
  }

  /** A counter built by `m[k] = (m[k] || 0) + v` holds every sampled key once, in first-seen order. */
  lemma {:induction false} SumMapKeys(ps: seq<(string, int)>)
    ensures DistinctKeys(SumMap(ps))
    ensures Keys(SumMap(ps)) == Distinct(Keys(ps))
    decreases |ps|
  {
    if ps != [] {
      var init := ps[..|ps| - 1];
      assert Keys(ps) == Keys(init) + [ps[|ps| - 1].0];
      SumMapKeys(init);
    }
  }

  /** ... and holds for each key the sum of its samples. */
  lemma {:induction false} SumMapTotals(ps: seq<(string, int)>, k: string)
    ensures GetOr(SumMap(ps), k, 0) == Total(ps, k)
    decreases |ps|
  {
    if ps != [] {
      SumMapTotals(ps[..|ps| - 1], k);
    }
  }

  // ---- What the aggregate says about the log ----

  /** A click event on the element `el`. */
  function ClickOn(el: string): Event -> bool {
    (e: Event) => e.eventType == Click && e.element == el
  }

  /** A click event in the section `s`. */
  function ClickIn(s: string): Event -> bool {
    (e: Event) => e.eventType == Click && e.section == s
  }

  lemma {:induction false} ClickElementsCount(events: seq<Event>, el: string)
    requires el != ""
    ensures Occurrences(ClickElements(events), el) == |Filter(events, ClickOn(el))|
    decreases |events|
  {
    if events != [] {
      var init := events[..|events| - 1];
      var e := events[|events| - 1];
      ClickElementsCount(init, el);
      if e.eventType == Click && e.element != "" {
        OccurrencesSnoc(ClickElements(init), e.element, el);
      }
    }
  }

  lemma {:induction false} ClickSectionsCount(events: seq<Event>, s: string)
    requires s != ""
    ensures Occurrences(ClickSections(events), s) == |Filter(events, ClickIn(s))|
    decreases |events|
  {
    if events != [] {
      var init := events[..|events| - 1];
      var e := events[|events| - 1];
      ClickSectionsCount(init, s);
      if e.eventType == Click && e.section != "" {
        OccurrencesSnoc(ClickSections(init), e.section, s);
      }
    }
  }

  lemma {:induction false} ClickElementsMembership(events: seq<Event>, el: string)
    ensures el in ClickElements(events) <==> el != "" && exists e :: e in events && e.eventType == Click && e.element == el
    decreases |events|
  {
    if events != [] {
      var init := events[..|events| - 1];
      assert events == init + [events[|events| - 1]];
      ClickElementsMembership(init, el);
    }
  }

  lemma {:induction false} ClickSectionsMembership(events: seq<Event>, s: string)
    ensures s in ClickSections(events) <==> s != "" && exists e :: e in events && e.eventType == Click && e.section == s
    decreases |events|
  {
    if events != [] {
      var init := events[..|events| - 1];
      assert events == init + [events[|events| - 1]];
      ClickSectionsMembership(init, s);
    }
  }

  /**
   * `clicksByElement` has one key per clicked element, in order of first click, and maps
   * it to the number of click events on that element; an empty element name is never counted.
   */
  lemma ClicksByElementMeaning(events: seq<Event>, el: string)
    ensures var m := AggregateOf(events).clicksByElement;
      && DistinctKeys(m)
      && Keys(m) == Distinct(ClickElements(events))
      && GetOr(m, el, 0) == (if el == "" then 0 else |Filter(events, ClickOn(el))|)
      && (el in Keys(m) <==> el != "" && exists e :: e in events && e.eventType == Click && e.element == el)
  {
    var ks := ClickElements(events);
    assert AggregateOf(events).clicksByElement == CountMap(ks);
    CountMapKeys(ks);
    CountMapCounts(ks, el);
    ClickElementsMembership(events, el);
    if el != "" {
      ClickElementsCount(events, el);
    }
  }

  /** The same for `clicksBySection`, keyed by the section of each click. */
  lemma ClicksBySectionMeaning(events: seq<Event>, s: string)
    ensures var m := AggregateOf(events).clicksBySection;
      && DistinctKeys(m)
      && Keys(m) == Distinct(ClickSections(events))
      && GetOr(m, s, 0) == (if s == "" then 0 else |Filter(events, ClickIn(s))|)
      && (s in Keys(m) <==> s != "" && exists e :: e in events && e.eventType == Click && e.section == s)
  {
    var ks := ClickSections(events);
    assert AggregateOf(events).clicksBySection == CountMap(ks);
    CountMapKeys(ks);
    CountMapCounts(ks, s);
    ClickSectionsMembership(events, s);
    if s != "" {
      ClickSectionsCount(events, s);
    }
  }

  lemma {:induction false} ScrollSamplesMembership(events: seq<Event>)
    ensures forall e :: e in events && IsDepthSample(e) ==> (e.section, e.metadata.depth) in ScrollSamples(events)
    ensures forall p :: p in ScrollSamples(events) ==> exists e :: e in events && IsDepthSample(e) && p == (e.section, e.metadata.depth)
    decreases |events|
  {
    if events != [] {
      var init := events[..|events| - 1];
      assert events == init + [events[|events| - 1]];
      ScrollSamplesMembership(init);
    }
  }

  /**
   * `scrollDepth[s]` is the deepest truthy depth any scroll event reported for `s`, never
   * below 0; the key exists exactly when such an event exists.
   */
  lemma ScrollDepthMeaning(events: seq<Event>, s: string)
    requires s != ""
    ensures var m := AggregateOf(events).scrollDepth; var d := GetOr(m, s, 0);
      && DistinctKeys(m)
      && d >= 0
      && (forall e :: e in events && e.eventType == Scroll && e.section == s ==> d >= e.metadata.depth)
      && (d == 0 || exists e :: e in events && e.eventType == Scroll && e.section == s && e.metadata.depth == d)
      && (s in Keys(m) <==> exists e :: e in events && IsDepthSample(e) && e.section == s)
  {
    var ps := ScrollSamples(events);
    var m := MaxMap(ps);
    assert AggregateOf(events).scrollDepth == m;
    var d := GetOr(m, s, 0);
    MaxMapKeys(ps);
    MaxMapBounds(ps, s);
    ScrollSamplesMembership(events);
    forall e | e in events && e.eventType == Scroll && e.section == s ensures d >= e.metadata.depth {
      if e.metadata.depth != 0 {
        var i :| 0 <= i < |ps| && ps[i] == (s, e.metadata.depth);
      }
    }
    if s in Keys(m) {
      assert s in Keys(ps);
      var i :| 0 <= i < |ps| && ps[i].0 == s;
      assert ps[i] in ps;
    }
    if exists e :: e in events && IsDepthSample(e) && e.section == s {
      var e :| e in events && IsDepthSample(e) && e.section == s;
      var i :| 0 <= i < |ps| && ps[i] == (s, e.metadata.depth);
      assert s == Keys(ps)[i];
    }
  }

  /** The summed truthy `timeSpent` of the view events on section `s`. */
  function TimeSpentIn(events: seq<Event>, s: string): int
    decreases |events|
  {
    if events == [] then 0
    else
      var e := events[|events| - 1];
      TimeSpentIn(events[..|events| - 1], s) + (if e.eventType == View && e.section == s then e.metadata.timeSpent else 0)
  }

  lemma TotalSnoc(ps: seq<(string, int)>, p: (string, int), k: string)
    ensures Total(ps + [p], k) == Total(ps, k) + (if p.0 == k then p.1 else 0)
  {
    assert (ps + [p])[..|ps|] == ps;
  }

  lemma {:induction false} ViewSamplesTotal(events: seq<Event>, s: string)
    requires s != ""
    ensures Total(ViewSamples(events), s) == TimeSpentIn(events, s)
    ensures s in Keys(ViewSamples(events)) <==> exists e :: e in events && IsTimeSample(e) && e.section == s
    decreases |events|
  {
    if events != [] {
      var init := events[..|events| - 1];
      var e := events[|events| - 1];
      assert events == init + [e];
      ViewSamplesTotal(init, s);
      if IsTimeSample(e) {
        TotalSnoc(ViewSamples(init), (e.section, e.metadata.timeSpent), s);
        assert Keys(ViewSamples(events)) == Keys(ViewSamples(init)) + [e.section];
      }
    }
  }

  /** `timeOnSection[s]` is the total time the view events reported for `s`; the key exists exactly when one reported a truthy time. */
  lemma TimeOnSectionMeaning(events: seq<Event>, s: string)
    requires s != ""
    ensures var m := AggregateOf(events).timeOnSection;
      && DistinctKeys(m)
      && GetOr(m, s, 0) == TimeSpentIn(events, s)
      && (s in Keys(m) <==> exists e :: e in events && IsTimeSample(e) && e.section == s)
  {
    assert AggregateOf(events).timeOnSection == SumMap(ViewSamples(events));
    SumMapKeys(ViewSamples(events));
    SumMapTotals(ViewSamples(events), s);
    ViewSamplesTotal(events, s);
  }

  /** Hover and form events (and any other kind) leave the aggregate as it was. */
  lemma OtherEventsIgnored(events: seq<Event>, e: Event)
    requires e.eventType != Click && e.eventType != Scroll && e.eventType != View
    ensures AggregateOf(events + [e]) == AggregateOf(events)
  {
    var all := events + [e];
    assert all[..|events|] == events;
    ClickElementsStep(all, |events|);
    ClickSectionsStep(all, |events|);
    ScrollSamplesStep(all, |events|);
    ViewSamplesStep(all, |events|);
  }

  // ---- The twenty most clicked elements ----

  function ElementsOf(ps: seq<PopularElement>): (r: seq<string>)
    ensures |r| == |ps|
    ensures forall i :: 0 <= i < |ps| ==> r[i] == ps[i].element
  {
    seq(|ps|, i requires 0 <= i < |ps| => ps[i].element)
  }

  lemma EntryOf(m: Counter, p: PopularElement)
    requires DistinctKeys(m) && p in Entries(m)
    ensures p.element in Keys(m) && p.count == GetOr(m, p.element, 0)
  {
    var j :| 0 <= j < |m| && Entries(m)[j] == p;
    GetOrEntry(m, j, 0);
    assert Keys(m)[j] == p.element;
  }

  lemma EntriesDistinct(m: Counter)
    requires DistinctKeys(m)
    ensures NoDups(Entries(m))
  {
    var es := Entries(m);
    forall i, j | 0 <= i < j < |es| ensures es[i] != es[j] {
      assert Keys(m)[i] != Keys(m)[j];
    }
  }

  /** The listing is a prefix of the sorted entries that takes at most twenty of them. */
  lemma PopularPrefix(m: Counter)
    ensures var r := PopularElements(m);
      && |r| == (if |m| <= PopularLimit then |m| else PopularLimit)
      && r <= SortDesc(Entries(m), CountOf)
      && SortedDesc(r, CountOf)
      && multiset(r) <= multiset(Entries(m))
  {
    var es := Entries(m);
    var t := SortDesc(es, CountOf);
    var r := PopularElements(m);
    assert t == r + t[|r|..];
    assert multiset(t) == multiset(r) + multiset(t[|r|..]);
  }

  /** Each listed element is a clicked element with its own count. */
  lemma PopularCounts(m: Counter, p: PopularElement)
    requires DistinctKeys(m) && p in PopularElements(m)
    ensures p.element in Keys(m) && p.count == GetOr(m, p.element, 0)
  {
    PopularPrefix(m);
    assert p in multiset(PopularElements(m));
    assert p in multiset(Entries(m));
    EntryOf(m, p);
  }

  /** No element is listed twice. */
  lemma PopularDistinct(m: Counter)
    requires DistinctKeys(m)
    ensures NoDups(ElementsOf(PopularElements(m)))
  {
    var r := PopularElements(m);
    PopularPrefix(m);
    EntriesDistinct(m);
    NoDupsPerm(Entries(m), r);
    forall i, j | 0 <= i < j < |r| ensures r[i].element != r[j].element {
      PopularCounts(m, r[i]);
      PopularCounts(m, r[j]);
    }
  }

  /** No element left out has more clicks than one listed. */
  lemma PopularTop(m: Counter, k: string, i: nat)
    requires DistinctKeys(m)
    requires k in Keys(m) && k !in ElementsOf(PopularElements(m)) && i < |PopularElements(m)|
    ensures GetOr(m, k, 0) <= PopularElements(m)[i].count
  {
    var es := Entries(m);
    var r := PopularElements(m);
    var y := PopularElement(k, GetOr(m, k, 0));
    assert es[IndexOf(m, k)] == y;
    forall q | 0 <= q < |r| ensures r[q] != y {
      assert ElementsOf(r)[q] == r[q].element;
    }
    assert multiset(r)[y] == 0;
    assert y in multiset(es) - multiset(r);
    PopularPrefix(m);
    TopBound(es, |r|, y, i);
  }

  lemma TopBound(es: seq<PopularElement>, n: nat, y: PopularElement, i: nat)
    requires n <= |es| && i < n
    requires y in multiset(es) - multiset(SortDesc(es, CountOf)[..n])
    ensures y.count <= SortDesc(es, CountOf)[i].count
  {
    TopKeys(es, CountOf, n);
  }

  /**
   * `popularElements` lists at most twenty elements, each with its own count, most clicked
   * first, no element twice, and no element left out has more clicks than one listed.
   */
  lemma PopularElementsMeaning(m: Counter)
    requires DistinctKeys(m)
    ensures var r := PopularElements(m);
      && |r| == (if |m| <= PopularLimit then |m| else PopularLimit)
      && SortedDesc(r, CountOf)
      && (forall p :: p in r ==> p.element in Keys(m) && p.count == GetOr(m, p.element, 0))
      && NoDups(ElementsOf(r))
      && (forall k, i :: k in Keys(m) && k !in ElementsOf(r) && 0 <= i < |r| ==> GetOr(m, k, 0) <= r[i].count)
  {
    var r := PopularElements(m);
    PopularPrefix(m);
    PopularDistinct(m);
    forall p | p in r ensures p.element in Keys(m) && p.count == GetOr(m, p.element, 0) {
      PopularCounts(m, p);
    }
    forall k, i | k in Keys(m) && k !in ElementsOf(r) && 0 <= i < |r| ensures GetOr(m, k, 0) <= r[i].count {
      PopularTop(m, k, i);
    }
  }

  /** Elements with equal counts keep the order of the counter's keys, that is, of their first click. */
  lemma PopularTiesInOrder(m: Counter, c: int)
    ensures WithKey(PopularElements(m), CountOf, c) <= WithKey(Entries(m), CountOf, c)
  {
    var t := SortDesc(Entries(m), CountOf);
    var r := PopularElements(m);
    assert t == r + t[|r|..];
    WithKeyConcat(r, t[|r|..], CountOf, c);
  }
}
