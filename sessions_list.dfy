/**
 * The admin session list of src/components/admin/SessionsList.tsx: sessions newest first,
 * each labelled with the head of its id and its duration in seconds or minutes and seconds.
 */
module SessionsList {
  import opened Wrappers
  import opened Text
  import opened StableSort
  import opened EventStore

  const StartTime: Session -> int := (s: Session) => s.startTime

  /**
   * `[...sessions].sort((a, b) => b.startTime - a.startTime)`: the same sessions, newest start
   * first, sessions that started together in fetched order. The fetched list is a value here,
   * so sorting the copy cannot reorder it.
   */
  function Newest(sessions: seq<Session>): (r: seq<Session>)
    ensures SortedDesc(r, StartTime)
    ensures multiset(r) == multiset(sessions)
    ensures forall t :: WithKey(r, StartTime, t) == WithKey(sessions, StartTime, t)
  {
    SortDesc(sessions, StartTime)
  }

  /** `session.id.substring(0, 8)`: at most the first eight characters. */
  function ShortId(id: string): (r: string)
    ensures r <= id
    ensures |r| == if |id| < 8 then |id| else 8
  {
    if |id| < 8 then id else id[..8]
  }

  /** `Math.floor((end - start) / 1000)`. */
  function Seconds(start: int, end: int): (s: int)
    ensures 1000 * s <= end - start < 1000 * (s + 1)
  {
    (end - start) / 1000
  }

  /** `formatDuration`: `<s>s` below a minute, otherwise `<m>m <r>s` with `r` the seconds left over. */
  function FormatDuration(start: int, end: int): (r: string)
  {
    var seconds := Seconds(start, end);
    if seconds < 60 then IntToString(seconds) + "s"
    else
      var minutes := seconds / 60;
      var remainingSeconds := seconds % 60;
      IntToString(minutes) + "m " + IntToString(remainingSeconds) + "s"
  }

  /** Reads a duration label back as a number of seconds. */
  function ParseDuration(d: string): Option<int> {
    if |d| == 0 || d[|d| - 1] != 's' then None
    else
      var parts := Split(d[..|d| - 1], ' ');
      if |parts| == 1 then ParseInt(parts[0])
      else if |parts| == 2 && |parts[0]| > 0 && parts[0][|parts[0]| - 1] == 'm' then
        match (ParseInt(parts[0][..|parts[0]| - 1]), ParseInt(parts[1]))
        case (Some(m), Some(r)) => Some(60 * m + r)
        case _ => None
      else None
  }

  /** A duration label gives back the whole seconds the session lasted. */
  lemma DurationRoundTrip(start: int, end: int)
    ensures ParseDuration(FormatDuration(start, end)) == Some(Seconds(start, end))
  {
    var seconds := Seconds(start, end);
    var d := FormatDuration(start, end);
    if seconds < 60 {
      assert d[..|d| - 1] == IntToString(seconds);
      SplitNone(IntToString(seconds), ' ');
      IntRoundTrip(seconds);
    } else {
      var m, q := seconds / 60, seconds % 60;
      var a := IntToString(m) + "m";
      assert d[..|d| - 1] == a + [' '] + IntToString(q);
      SplitJoin(a, IntToString(q), ' ');
      assert a[..|a| - 1] == IntToString(m);
      IntRoundTrip(m);
      IntRoundTrip(q);
    }
  }

  /** From a minute on, the label shows the whole minutes and the fewer than sixty seconds left over. */
  lemma DurationInMinutes(start: int, end: int, m: int, q: int)
    requires Seconds(start, end) >= 60
    requires 0 <= q < 60 && 60 * m + q == Seconds(start, end)
    ensures FormatDuration(start, end) == IntToString(m) + "m " + IntToString(q) + "s"
  {
    var seconds := Seconds(start, end);
    assert seconds / 60 == m && seconds % 60 == q by {
      var m', q' := seconds / 60, seconds % 60;
      assert 60 * m' + q' == seconds && 0 <= q' < 60;
      assert 60 * (m - m') == q' - q;
    }
  }

  /** Below a minute, the label is the seconds alone. */
  lemma DurationInSeconds(start: int, end: int)
    requires Seconds(start, end) < 60
    ensures FormatDuration(start, end) == IntToString(Seconds(start, end)) + "s"
    ensures ' ' !in FormatDuration(start, end)
  {
  }
}
