/**
 * The admin statistics panel of src/components/admin/StatsPanel.tsx: the aggregate's
 * counters turned into chart entries sorted by value, the ten most clicked elements, the
 * time per section in whole seconds, the average number of interactions per session and
 * the most clicked section.
 */
module StatsPanel {
  import opened Seqs
  import opened OrderedMap
  import opened StableSort
  import opened Aggregator

  /** `{ name, value }` or `{ name, time }`: one slice or bar of a chart. */
  datatype ChartEntry = ChartEntry(name: string, value: int)

  const Value: ChartEntry -> int := (c: ChartEntry) => c.value

  // ---- Math.round ----

  /** `Math.round(a / b)`: the integer nearest to `a / b`, a half rounded up. */
  function RoundDiv(a: int, b: int): (r: int)
    requires b > 0
    ensures b * (2 * r - 1) <= 2 * a < b * (2 * r + 1)
  {
    var q := (2 * a + b) / (2 * b);
    assert 2 * a + b == 2 * b * q + (2 * a + b) % (2 * b);
    q
  }

  lemma MulLess(b: int, x: int, y: int)
    requires b > 0 && b * x < b * y
    ensures x < y
  {
    assert b * y - b * x == b * (y - x);
  }

  /** Only one integer is that close to `a / b`. */
  lemma RoundUnique(a: int, b: int, r: int)
    requires b > 0
    requires b * (2 * r - 1) <= 2 * a < b * (2 * r + 1)
    ensures r == RoundDiv(a, b)
  {
    var q := RoundDiv(a, b);
    MulLess(b, 2 * r - 1, 2 * q + 1);
    MulLess(b, 2 * q - 1, 2 * r + 1);
  }

  // ---- Charts from counters ----

  /** `Object.entries(m).map(([name, v]) => ({ name, value: f(v) }))`. */
  function ChartOf(m: Counter, f: int -> int): (r: seq<ChartEntry>)
    ensures |r| == |m|
    ensures forall i :: 0 <= i < |m| ==> r[i] == ChartEntry(m[i].0, f(m[i].1))
  {
    seq(|m|, i requires 0 <= i < |m| => ChartEntry(m[i].0, f(m[i].1)))
  }

  /** The same entries, sorted with `(a, b) => b.value - a.value`. */
  function Chart(m: Counter, f: int -> int): (r: seq<ChartEntry>)
    ensures SortedDesc(r, Value)
    ensures multiset(r) == multiset(ChartOf(m, f))
  {
    SortDesc(ChartOf(m, f), Value)
  }

  /** A chart holds one entry per key of its counter, with the key's value converted, largest first. */
  lemma ChartMeaning(m: Counter, f: int -> int)
    requires DistinctKeys(m)
    ensures var r := Chart(m, f);
      && |r| == |m|
      && SortedDesc(r, Value)
      && (forall p :: p in r ==> p.name in Keys(m) && p.value == f(GetOr(m, p.name, 0)))
      && (forall k :: k in Keys(m) ==> ChartEntry(k, f(GetOr(m, k, 0))) in r)
  {
    var es := ChartOf(m, f);
    var r := Chart(m, f);
    assert |r| == |multiset(r)| == |multiset(es)| == |es|;
    forall p | p in r ensures p.name in Keys(m) && p.value == f(GetOr(m, p.name, 0)) {
      assert p in multiset(es);
      var j :| 0 <= j < |es| && es[j] == p;
      GetOrEntry(m, j, 0);
      assert Keys(m)[j] == p.name;
    }
    forall k | k in Keys(m) ensures ChartEntry(k, f(GetOr(m, k, 0))) in r {
      var j := IndexOf(m, k);
      assert es[j] == ChartEntry(k, f(GetOr(m, k, 0)));
      assert es[j] in multiset(r);
    }
  }

  const Identity: int -> int := (v: int) => v

  /** `sectionClicks`. */
  function SectionClicks(clicksBySection: Counter): seq<ChartEntry> {
    Chart(clicksBySection, Identity)
  }

  const ToSeconds: int -> int := (t: int) => RoundDiv(t, 1000)

  /** `sectionTime`: milliseconds rounded to the nearest second. */
  function SectionTime(timeOnSection: Counter): seq<ChartEntry> {
    Chart(timeOnSection, ToSeconds)
  }

  /** Each section's clicks, most clicked first, one entry per section. */
  lemma SectionClicksMeaning(clicksBySection: Counter)
    requires DistinctKeys(clicksBySection)
    ensures var r := SectionClicks(clicksBySection);
      && |r| == |clicksBySection|
      && SortedDesc(r, Value)
      && (forall p :: p in r ==> p.name in Keys(clicksBySection) && p.value == GetOr(clicksBySection, p.name, 0))
      && (forall k :: k in Keys(clicksBySection) ==> ChartEntry(k, GetOr(clicksBySection, k, 0)) in r)
  {
    ChartMeaning(clicksBySection, Identity);
  }

  /** Each section's time in whole seconds, within half a second of the milliseconds, longest first. */
  lemma SectionTimeMeaning(timeOnSection: Counter)
    requires DistinctKeys(timeOnSection)
    ensures var r := SectionTime(timeOnSection);
      && |r| == |timeOnSection|
      && SortedDesc(r, Value)
      && (forall p :: p in r ==>
            (p.name in Keys(timeOnSection)
             && 1000 * (2 * p.value - 1) <= 2 * GetOr(timeOnSection, p.name, 0) < 1000 * (2 * p.value + 1)))
      && (forall k :: k in Keys(timeOnSection) ==> ChartEntry(k, RoundDiv(GetOr(timeOnSection, k, 0), 1000)) in r)
  {
    ChartMeaning(timeOnSection, ToSeconds);
  }

  // ---- The most clicked elements ----

  const TopLimit := 10

  /** `popularElements.slice(0, 10)`. */
  function TopElements(popular: seq<PopularElement>): (r: seq<PopularElement>)
    ensures r <= popular
    ensures |r| == if |popular| < TopLimit then |popular| else TopLimit
  {
    if |popular| < TopLimit then popular else popular[..TopLimit]
  }

  /**
   * Of the aggregate's popular elements, the panel lists at most ten, most clicked first,
   * each with its own count, and no element left out has more clicks than one listed.
   */
  lemma TopElementsMeaning(m: Counter)
    requires DistinctKeys(m)
    ensures var r := TopElements(PopularElements(m));
      && |r| == (if |m| < TopLimit then |m| else TopLimit)
      && SortedDesc(r, CountOf)
      && (forall p :: p in r ==> p.element in Keys(m) && p.count == GetOr(m, p.element, 0))
      && (forall k, i :: k in Keys(m) && k !in ElementsOf(r) && 0 <= i < |r| ==> GetOr(m, k, 0) <= r[i].count)
  {
    var ps := PopularElements(m);
    var r := TopElements(ps);
    PopularElementsMeaning(m);
    assert forall i :: 0 <= i < |r| ==> r[i] == ps[i];
    assert forall q :: 0 <= q < |r| ==> ElementsOf(r)[q] == ElementsOf(ps)[q];
    forall k, i | k in Keys(m) && k !in ElementsOf(r) && 0 <= i < |r| ensures GetOr(m, k, 0) <= r[i].count {
      if k in ElementsOf(ps) {
        var j :| 0 <= j < |ps| && ElementsOf(ps)[j] == k;
        assert ps[j] in ps;
      }
    }
  }

  // ---- The overview cards ----

  /** "Avg Interactions": 0 without sessions, else the events per session rounded to the nearest integer. */
  function AverageInteractions(totalEvents: int, totalSessions: int): (r: int)
    ensures totalSessions <= 0 ==> r == 0
    ensures totalSessions > 0 ==> totalSessions * (2 * r - 1) <= 2 * totalEvents < totalSessions * (2 * r + 1)
  {
    if totalSessions > 0 then RoundDiv(totalEvents, totalSessions) else 0
  }

  /** "Top Section": the first chart entry's name and value, or "N/A" with 0 clicks. */
  function TopSection(sectionClicks: seq<ChartEntry>): (string, int) {
    var name := if |sectionClicks| > 0 && sectionClicks[0].name != "" then sectionClicks[0].name else "N/A";
    var clicks := if |sectionClicks| > 0 then sectionClicks[0].value else 0;
    (name, clicks)
  }

  /** The top section is a most clicked section with its clicks; with no clicks it is "N/A" with 0. */
  lemma TopSectionMeaning(clicksBySection: Counter)
    requires DistinctKeys(clicksBySection) && "" !in Keys(clicksBySection)
    ensures var (name, clicks) := TopSection(SectionClicks(clicksBySection));
      && (clicksBySection == [] ==> name == "N/A" && clicks == 0)
      && (clicksBySection != [] ==>
            && name in Keys(clicksBySection) && clicks == GetOr(clicksBySection, name, 0)
            && forall k :: k in Keys(clicksBySection) ==> GetOr(clicksBySection, k, 0) <= clicks)
  {
    var r := SectionClicks(clicksBySection);
    SectionClicksMeaning(clicksBySection);
    if clicksBySection != [] {
      assert r[0] in r;
      forall k | k in Keys(clicksBySection) ensures GetOr(clicksBySection, k, 0) <= r[0].value {
        var p := ChartEntry(k, GetOr(clicksBySection, k, 0));
        assert p in r;
        var j :| 0 <= j < |r| && r[j] == p;
        if j > 0 {
          assert Value(r[0]) >= Value(r[j]);
        }
      }
    }
  }
}
