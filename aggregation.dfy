/**
 * Aggregation of 1-minute bars into 5-minute bars: the loop shared by
 * debug_5m_test.py (test_manual_aggregation_logic) and KisApi.fetch_5m_candles.
 */
module Aggregation {
  import opened Options
  import opened TimeKeys
  import opened Candles

  /** `stck_cntg_hour` ("HHMMSS"): the minute digits at positions 2 and 3 must parse. */
  type TimeString = t: string | |t| >= 4 && IsDigit(t[2]) && IsDigit(t[3]) witness "0000"

  /** One 1-minute bar as the chart endpoint reports it. */
  datatype MinuteBar = MinuteBar(time: TimeString, open: int, close: int, high: int, low: int)

  /**
   * The bucket key of a time string: hour digits, then the minute rounded
   * down to a multiple of five. Rounding only touches the last minute digit,
   * which becomes '0' or '5'; KeyOfFormula shows this is the source's
   * `t_str[0:2] + f"{(int(t_str[2:4]) // 5) * 5:02d}"`.
   */
  function KeyOf(t: TimeString): (k: string)
    ensures |k| == 4 && k[..2] == t[..2]
  {
    [t[0], t[1], t[2], if t[3] < '5' then '0' else '5']
  }

  /** The digit-level key agrees with parsing, rounding and reformatting the minute. */
  lemma KeyOfFormula(t: TimeString)
    ensures KeyOf(t) == t[..2] + TwoDigits(BucketMinute(ParseTwoDigits(t[2..4])))
  {
    var m := ParseTwoDigits(t[2..4]);
    assert m == 10 * DigitValue(t[2]) + DigitValue(t[3]);
    var b := BucketMinute(m);
    var d := if t[3] < '5' then 0 else 5;
    assert b == 10 * DigitValue(t[2]) + d;
    assert b / 10 == DigitValue(t[2]) && b % 10 == d;
  }

  // ---------------------------------------------------------------------------
  // Sorting by time string (the source's `sort(key=lambda x: x['stck_cntg_hour'])`)
  // ---------------------------------------------------------------------------

  predicate SortedByTime(s: seq<MinuteBar>) {
    forall i, j :: 0 <= i < j < |s| ==> LexLe(s[i].time, s[j].time)
  }

  /** Insert after every bar whose time is not later, so equal times keep their order. */
  method InsertByTime(s: seq<MinuteBar>, x: MinuteBar) returns (r: seq<MinuteBar>)
    requires SortedByTime(s)
    ensures SortedByTime(r)
    ensures multiset(r) == multiset(s) + multiset{x}
    ensures (|s| == 0 || LexLe(s[|s| - 1].time, x.time)) ==> r == s + [x]
  {
    var j := |s|;
    while j > 0 && !LexLe(s[j - 1].time, x.time)
      invariant 0 <= j <= |s|
      invariant forall k :: j <= k < |s| ==> !LexLe(s[k].time, x.time)
    {
      j := j - 1;
    }
    r := s[..j] + [x] + s[j..];
    InsertKeepsSorted(s, x, j);
    assert s == s[..j] + s[j..];
  }

  /** The insertion point the scan finds keeps the sequence sorted. */
  lemma InsertKeepsSorted(s: seq<MinuteBar>, x: MinuteBar, j: nat)
    requires SortedByTime(s) && j <= |s|
    requires j > 0 ==> LexLe(s[j - 1].time, x.time)
    requires forall k :: j <= k < |s| ==> !LexLe(s[k].time, x.time)
    ensures SortedByTime(s[..j] + [x] + s[j..])
  {
    var r := s[..j] + [x] + s[j..];
    forall a, b | 0 <= a < b < |r| ensures LexLe(r[a].time, r[b].time) {
      if b < j {
        assert r[a] == s[a] && r[b] == s[b];
      } else if a > j {
        assert r[a] == s[a - 1] && r[b] == s[b - 1];
      } else if a == j {
        assert r[b] == s[b - 1];
        LexLeTotal(s[b - 1].time, x.time);
      } else if b == j {
        assert r[a] == s[a];
        if a < j - 1 { LexLeTransitive(s[a].time, s[j - 1].time, x.time); }
      } else {
        assert r[a] == s[a] && r[b] == s[b - 1];
      }
    }
  }

  /** A stable insertion sort by time string. */
  method SortByTime(items: seq<MinuteBar>) returns (sorted: seq<MinuteBar>)
    ensures SortedByTime(sorted)
    ensures multiset(sorted) == multiset(items)
    ensures SortedByTime(items) ==> sorted == items
  {
    sorted := [];
    for i := 0 to |items|
      invariant SortedByTime(sorted)
      invariant multiset(sorted) == multiset(items[..i])
      invariant SortedByTime(items) ==> sorted == items[..i]
    {
      sorted := InsertByTime(sorted, items[i]);
      assert items[..i + 1] == items[..i] + [items[i]];
    }
    assert items[..|items|] == items;
  }

  // ---------------------------------------------------------------------------
  // Reference definition: maximal runs of one bucket key, one bar per run
  // ---------------------------------------------------------------------------

  function Flatten(segs: seq<seq<MinuteBar>>): seq<MinuteBar> {
    if |segs| == 0 then [] else Flatten(segs[..|segs| - 1]) + segs[|segs| - 1]
  }

  function Last<T>(s: seq<T>): T
    requires |s| > 0
  {
    s[|s| - 1]
  }

  predicate UniformKey(seg: seq<MinuteBar>) {
    |seg| > 0 && forall k :: 0 <= k < |seg| ==> KeyOf(seg[k].time) == KeyOf(seg[0].time)
  }

  predicate NonEmptyRuns(runs: seq<seq<MinuteBar>>) {
    forall j :: 0 <= j < |runs| ==> |runs[j]| > 0
  }

  /** True when minute x continues the last run: same bucket key as that run. */
  predicate Joins(runs: seq<seq<MinuteBar>>, x: MinuteBar) {
    |runs| > 0 && |Last(runs)| > 0 && KeyOf(Last(runs)[0].time) == KeyOf(x.time)
  }

  /** One more minute joins the last run, or opens a run of its own. */
  function AddMinute(runs: seq<seq<MinuteBar>>, x: MinuteBar): (r: seq<seq<MinuteBar>>)
    ensures |r| > 0 && Last(r) == if Joins(runs, x) then Last(runs) + [x] else [x]
    ensures |r| == if Joins(runs, x) then |runs| else |runs| + 1
    ensures forall j :: 0 <= j < |runs| - 1 ==> r[j] == runs[j]
    ensures !Joins(runs, x) && |runs| > 0 ==> r[|runs| - 1] == Last(runs)
    ensures NonEmptyRuns(runs) ==> NonEmptyRuns(r)
  {
    if Joins(runs, x) then runs[..|runs| - 1] + [Last(runs) + [x]] else runs + [[x]]
  }

  /**
   * The input cut into maximal runs of consecutive bars with the same bucket
   * key (SegmentsUniform, SegmentsDistinct and SegmentsPartition below say so).
   */
  function Segments(s: seq<MinuteBar>): (segs: seq<seq<MinuteBar>>)
    ensures |segs| == 0 <==> |s| == 0
    ensures NonEmptyRuns(segs)
    ensures |segs| > 0 ==> Last(Last(segs)) == Last(s)
    decreases |s|
  {
    if |s| == 0 then [] else AddMinute(Segments(s[..|s| - 1]), s[|s| - 1])
  }

  lemma SegmentsSnoc(init: seq<MinuteBar>, x: MinuteBar)
    ensures Segments(init + [x]) == AddMinute(Segments(init), x)
  {
    assert (init + [x])[..|init|] == init;
  }

  /** Every run has a single bucket key. */
  lemma {:induction false} SegmentsUniform(s: seq<MinuteBar>, j: nat)
    requires j < |Segments(s)|
    ensures UniformKey(Segments(s)[j])
    decreases |s|
  {
    var init: seq<MinuteBar>, x: MinuteBar := s[..|s| - 1], s[|s| - 1];
    Snoc(s);
    SegmentsSnoc(init, x);
    var prev := Segments(init);
    if j < |prev| { SegmentsUniform(init, j); }
    UniformAdd(prev, x, j);
  }

  lemma UniformAdd(runs: seq<seq<MinuteBar>>, x: MinuteBar, j: nat)
    requires j < |AddMinute(runs, x)|
    requires j < |runs| ==> UniformKey(runs[j])
    ensures UniformKey(AddMinute(runs, x)[j])
  {
    var r := AddMinute(runs, x);
    if Joins(runs, x) && j == |runs| - 1 {
      var seg := Last(runs);
      assert r[j] == seg + [x];
      forall k | 0 <= k < |r[j]| ensures KeyOf(r[j][k].time) == KeyOf(r[j][0].time) {
        if k < |seg| { assert r[j][k] == seg[k]; }
      }
    }
  }

  /** Neighbouring runs have different bucket keys, so every run is maximal. */
  lemma {:induction false} SegmentsDistinct(s: seq<MinuteBar>, j: nat)
    requires 0 < j < |Segments(s)|
    ensures var segs := Segments(s); KeyOf(segs[j - 1][0].time) != KeyOf(segs[j][0].time)
    decreases |s|
  {
    var init: seq<MinuteBar>, x: MinuteBar := s[..|s| - 1], s[|s| - 1];
    Snoc(s);
    SegmentsSnoc(init, x);
    var prev := Segments(init);
    if j < |prev| { SegmentsDistinct(init, j); }
    DistinctAdd(prev, x, j);
  }

  lemma DistinctAdd(runs: seq<seq<MinuteBar>>, x: MinuteBar, j: nat)
    requires NonEmptyRuns(runs)
    requires 0 < j < |AddMinute(runs, x)|
    requires j < |runs| ==> KeyOf(runs[j - 1][0].time) != KeyOf(runs[j][0].time)
    ensures var r := AddMinute(runs, x); KeyOf(r[j - 1][0].time) != KeyOf(r[j][0].time)
  {
  }

  lemma FlattenSnoc(segs: seq<seq<MinuteBar>>, seg: seq<MinuteBar>)
    ensures Flatten(segs + [seg]) == Flatten(segs) + seg
  {
    assert (segs + [seg])[..|segs|] == segs;
  }

  /** Adding a minute to the runs adds it at the end of their concatenation. */
  lemma FlattenAdd(runs: seq<seq<MinuteBar>>, x: MinuteBar)
    ensures Flatten(AddMinute(runs, x)) == Flatten(runs) + [x]
  {
    if Joins(runs, x) {
      var front, last := runs[..|runs| - 1], Last(runs);
      assert runs == front + [last];
      FlattenSnoc(front, last + [x]);
      FlattenSnoc(front, last);
      assert Flatten(front) + (last + [x]) == (Flatten(front) + last) + [x];
    } else {
      FlattenSnoc(runs, [x]);
    }
  }

  /** The runs, read one after another, are the input: nothing is lost or reordered. */
  lemma {:induction false} SegmentsPartition(s: seq<MinuteBar>)
    ensures Flatten(Segments(s)) == s
    decreases |s|
  {
    if |s| > 0 {
      var init: seq<MinuteBar>, x: MinuteBar := s[..|s| - 1], s[|s| - 1];
      Snoc(s);
      SegmentsPartition(init);
      SegmentsSnoc(init, x);
      FlattenAdd(Segments(init), x);
    }
  }

  function MaxHigh(seg: seq<MinuteBar>): int
    requires |seg| > 0
  {
    if |seg| == 1 then seg[0].high
    else var m := MaxHigh(seg[..|seg| - 1]); if seg[|seg| - 1].high > m then seg[|seg| - 1].high else m
  }

  function MinLow(seg: seq<MinuteBar>): int
    requires |seg| > 0
  {
    if |seg| == 1 then seg[0].low
    else var m := MinLow(seg[..|seg| - 1]); if seg[|seg| - 1].low < m then seg[|seg| - 1].low else m
  }

  /** A run's bar: first open, last close, highest high, lowest low, the run's key. */
  function Summarize(seg: seq<MinuteBar>): Bar
    requires |seg| > 0
  {
    Bar(seg[0].open, MaxHigh(seg), MinLow(seg), seg[|seg| - 1].close, KeyOf(seg[0].time))
  }

  function Summaries(segs: seq<seq<MinuteBar>>): (bars: seq<Bar>)
    requires NonEmptyRuns(segs)
    ensures |bars| == |segs|
  {
    if |segs| == 0 then [] else Summaries(segs[..|segs| - 1]) + [Summarize(segs[|segs| - 1])]
  }

  /** One bar per run; the trailing bar is kept only when its open is positive. */
  function Expected(s: seq<MinuteBar>): seq<Bar> {
    var all := Summaries(Segments(s));
    if |all| > 0 && all[|all| - 1].open <= 0 then all[..|all| - 1] else all
  }

  // ---------------------------------------------------------------------------
  // The aggregation loop
  // ---------------------------------------------------------------------------

  /** The bookkeeping step of the loop: extend the run's bar with one more minute. */
  lemma SummarizeSnoc(seg: seq<MinuteBar>, x: MinuteBar)
    requires |seg| > 0
    ensures var b, c := Summarize(seg), Summarize(seg + [x]);
      c == Bar(b.open, if x.high > b.high then x.high else b.high,
               if x.low < b.low then x.low else b.low, x.close, b.tag)
  {
    assert (seg + [x])[..|seg|] == seg;
  }

  lemma SummariesSnoc(segs: seq<seq<MinuteBar>>, seg: seq<MinuteBar>)
    requires NonEmptyRuns(segs)
    requires |seg| > 0
    ensures Summaries(segs + [seg]) == Summaries(segs) + [Summarize(seg)]
  {
    assert (segs + [seg])[..|segs|] == segs;
  }

  lemma SummariesLast(segs: seq<seq<MinuteBar>>)
    requires NonEmptyRuns(segs) && |segs| > 0
    ensures var all := Summaries(segs); Last(all) == Summarize(Last(segs))
  {
  }

  /** The bars of the runs after one more minute: the last bar grows, or a bar is added. */
  lemma SummariesAdd(runs: seq<seq<MinuteBar>>, x: MinuteBar)
    requires NonEmptyRuns(runs)
    ensures var r, all := Summaries(AddMinute(runs, x)), Summaries(runs);
      if Joins(runs, x) then |all| > 0 && r == all[..|all| - 1] + [Summarize(Last(runs) + [x])]
      else r == all + [Summarize([x])]
  {
    if Joins(runs, x) {
      var front, last := runs[..|runs| - 1], Last(runs);
      assert runs == front + [last];
      SummariesSnoc(front, last);
      SummariesSnoc(front, last + [x]);
      var sf := Summaries(front);
      assert (sf + [Summarize(last)])[..|sf|] == sf;
    } else {
      SummariesSnoc(runs, [x]);
    }
  }

  /** The first minute opens a run of its own. */
  lemma AggregateFirst(s: seq<MinuteBar>)
    requires |s| > 0
    ensures var x := s[0];
      Summaries(Segments(s[..1])) == [Bar(x.open, x.high, x.low, x.close, KeyOf(x.time))]
  {
    var x := s[0];
    assert s[..1] == [] + [x];
    SegmentsSnoc([], x);
    SummariesAdd([], x);
  }

  /**
   * Minute i either extends the bar of minute i - 1 (same key) or starts a new
   * one: exactly the two branches of the loop body.
   */
  lemma AggregateStep(s: seq<MinuteBar>, i: nat)
    requires 0 < i < |s|
    ensures var prev, cur, x := Summaries(Segments(s[..i])), Summaries(Segments(s[..i + 1])), s[i];
      |prev| > 0 &&
      if KeyOf(s[i - 1].time) == KeyOf(x.time) then
        var b := Last(prev);
        cur == prev[..|prev| - 1] + [Bar(b.open, if x.high > b.high then x.high else b.high,
                                         if x.low < b.low then x.low else b.low, x.close, b.tag)]
      else
        cur == prev + [Bar(x.open, x.high, x.low, x.close, KeyOf(x.time))]
  {
    var init: seq<MinuteBar>, x: MinuteBar := s[..i], s[i];
    assert s[..i + 1] == init + [x];
    SegmentsSnoc(init, x);
    var runs := Segments(init);
    SummariesAdd(runs, x);
    SummariesLast(runs);
    var last := Last(runs);
    SegmentsUniform(init, |runs| - 1);
    assert Last(last) == s[i - 1];
    assert KeyOf(Last(last).time) == KeyOf(last[0].time);
    if Joins(runs, x) {
      SummarizeSnoc(last, x);
    }
  }

  /** The loop invariant survives a minute with the same key as its predecessor. */
  lemma ExtendRun(s: seq<MinuteBar>, i: nat, bars: seq<Bar>, temp: Bar)
    requires 0 < i < |s| && KeyOf(s[i - 1].time) == KeyOf(s[i].time)
    requires Summaries(Segments(s[..i])) == bars + [temp]
    ensures var x := s[i];
      Summaries(Segments(s[..i + 1])) ==
        bars + [Bar(temp.open, if x.high > temp.high then x.high else temp.high,
                    if x.low < temp.low then x.low else temp.low, x.close, temp.tag)]
  {
    AggregateStep(s, i);
    assert (bars + [temp])[..|bars|] == bars;
  }

  /** The loop invariant survives a minute that opens a new bucket. */
  lemma StartRun(s: seq<MinuteBar>, i: nat, bars: seq<Bar>, temp: Bar)
    requires 0 < i < |s| && KeyOf(s[i - 1].time) != KeyOf(s[i].time)
    requires Summaries(Segments(s[..i])) == bars + [temp]
    ensures var x := s[i];
      Summaries(Segments(s[..i + 1])) == bars + [temp] + [Bar(x.open, x.high, x.low, x.close, KeyOf(x.time))]
  {
    AggregateStep(s, i);
  }

  /**
   * The walk over time-ordered minutes: a bar is closed whenever the bucket
   * key changes, and the trailing bar is kept only when its open is positive.
   */
  method AggregateSorted(sorted: seq<MinuteBar>) returns (bars: seq<Bar>)
    ensures bars == Expected(sorted)
  {
    bars := [];
    var currentKey: Option<string> := None;
    var temp := Bar(0, 0, 0, 0, "");
    for i := 0 to |sorted|
      invariant i == 0 ==> currentKey.None? && bars == [] && temp.open == 0
      invariant i > 0 ==> currentKey == Some(KeyOf(sorted[i - 1].time))
                          && Summaries(Segments(sorted[..i])) == bars + [temp]
    {
      var item := sorted[i];
      var key := KeyOf(item.time);
      if currentKey != Some(key) {
        if i == 0 { AggregateFirst(sorted); } else { StartRun(sorted, i, bars, temp); }
        if currentKey.Some? {
          bars := bars + [temp];
        }
        currentKey := Some(key);
        temp := Bar(item.open, item.high, item.low, item.close, key);
      } else {
        ExtendRun(sorted, i, bars, temp);
        var high := if item.high > temp.high then item.high else temp.high;
        var low := if item.low < temp.low then item.low else temp.low;
        temp := Bar(temp.open, high, low, item.close, temp.tag);
      }
    }
    assert sorted[..|sorted|] == sorted;
    if |sorted| > 0 {
      assert (bars + [temp])[..|bars|] == bars;
    }
    if temp.open > 0 {
      bars := bars + [temp];
    }
  }

  /** test_manual_aggregation_logic / fetch_5m_candles: sort by time, then aggregate. */
  method Aggregate5m(items: seq<MinuteBar>) returns (sorted: seq<MinuteBar>, bars: seq<Bar>)
    ensures SortedByTime(sorted) && multiset(sorted) == multiset(items)
    ensures bars == Expected(sorted)
  {
    sorted := SortByTime(items);
    bars := AggregateSorted(sorted);
  }

  function Reverse<T>(s: seq<T>): (r: seq<T>)
    ensures |r| == |s|
    ensures forall i :: 0 <= i < |s| ==> r[i] == s[|s| - 1 - i]
  {
    if |s| == 0 then [] else Reverse(s[1..]) + [s[0]]
  }

  /** A chart row as received, before its time string is known to parse. */
  datatype RawMinuteBar = RawMinuteBar(time: string, open: int, close: int, high: int, low: int)

  /** Whether `int(t_str[2:4])` is taken to succeed: characters 2 and 3 are digits. */
  predicate ParsesAsTime(t: string) {
    |t| >= 4 && IsDigit(t[2]) && IsDigit(t[3])
  }

  predicate AllParse(raw: seq<RawMinuteBar>) {
    forall i :: 0 <= i < |raw| ==> ParsesAsTime(raw[i].time)
  }

  function Parsed(raw: seq<RawMinuteBar>): (minutes: seq<MinuteBar>)
    requires AllParse(raw)
    ensures |minutes| == |raw|
    ensures forall i :: 0 <= i < |raw| ==>
      minutes[i] == MinuteBar(raw[i].time, raw[i].open, raw[i].close, raw[i].high, raw[i].low)
  {
    seq(|raw|, i requires 0 <= i < |raw| && ParsesAsTime(raw[i].time) =>
      MinuteBar(raw[i].time, raw[i].open, raw[i].close, raw[i].high, raw[i].low))
  }

  /**
   * fetch_5m_candles returns the same bars newest first. A time string that
   * does not parse raises ValueError inside the loop, which the handler
   * turns into no bars at all. The bars it returns carry no time key; the
   * `tag` of each Bar here is the model's own label, the bucket key that
   * debug_5m_test.py computes.
   */
  method Fetch5mCandles(raw: seq<RawMinuteBar>) returns (bars: seq<Bar>)
    ensures !AllParse(raw) ==> bars == []
    ensures AllParse(raw) ==>
      exists sorted :: SortedByTime(sorted) && multiset(sorted) == multiset(Parsed(raw))
                       && bars == Reverse(Expected(sorted))
  {
    if exists i :: 0 <= i < |raw| && !ParsesAsTime(raw[i].time) {
      bars := [];
    } else {
      var sorted, oldestFirst := Aggregate5m(Parsed(raw));
      bars := Reverse(oldestFirst);
    }
  }

  // ---------------------------------------------------------------------------
  // Properties
  // ---------------------------------------------------------------------------

  /** No minutes, no bars: the initial placeholder has open 0. */
  lemma EmptyInputNoBars()
    ensures Expected([]) == []
  {
  }

  /** Later times never fall into an earlier bucket. */
  lemma KeyOfMonotone(t1: TimeString, t2: TimeString)
    requires LexLe(t1, t2)
    ensures LexLe(KeyOf(t1), KeyOf(t2))
  {
    var k1, k2 := KeyOf(t1), KeyOf(t2);
    var u1, u2 := t1[1..], t2[1..];
    var v1, v2 := u1[1..], u2[1..];
    var w1, w2 := v1[1..], v2[1..];
    if t1[0] < t2[0] {
      LexLeAt(k1, k2, 0);
    } else if t1[1] < t2[1] {
      assert k1[..1] == k2[..1];
      LexLeAt(k1, k2, 1);
    } else if t1[2] < t2[2] {
      assert LexLe(u1, u2) && LexLe(v1, v2);
      assert k1[..2] == k2[..2];
      LexLeAt(k1, k2, 2);
    } else {
      assert LexLe(u1, u2) && LexLe(v1, v2) && LexLe(w1, w2);
      assert w1[0] == t1[3] && w2[0] == t2[3];
      if k1[3] < k2[3] {
        assert k1[..3] == k2[..3];
        LexLeAt(k1, k2, 3);
      } else {
        assert k1 == k2;
        LexLeReflexive(k1);
      }
    }
  }

  /**
   * On time-sorted input the output bars are in strictly increasing bucket
   * order, so no two bars share a bucket.
   */
  lemma AggregateOrdered(s: seq<MinuteBar>)
    requires SortedByTime(s)
    ensures var bars := Expected(s);
      forall i :: 0 < i < |bars| ==> LexLt(bars[i - 1].tag, bars[i].tag)
  {
    var all := Summaries(Segments(s));
    var bars := Expected(s);
    assert bars == all || bars == all[..|all| - 1];
    forall i | 0 < i < |bars| ensures LexLt(bars[i - 1].tag, bars[i].tag) {
      assert bars[i - 1] == all[i - 1] && bars[i] == all[i];
      var k := RunBoundary(s, i);
      var p, q := s[k - 1], s[k];
      assert LexLe(p.time, q.time);
      KeyOfMonotone(p.time, q.time);
    }
  }

  /**
   * Bar i - 1 carries the key of minute k - 1 and bar i that of minute k,
   * and the two keys differ.
   */
  lemma RunBoundary(s: seq<MinuteBar>, i: nat) returns (k: nat)
    requires 0 < i < |Segments(s)|
    ensures 0 < k < |s|
    ensures var all := Summaries(Segments(s));
      all[i - 1].tag == KeyOf(s[k - 1].time) && all[i].tag == KeyOf(s[k].time)
      && KeyOf(s[k - 1].time) != KeyOf(s[k].time)
  {
    var segs := Segments(s);
    RunTag(segs, i - 1);
    RunTag(segs, i);
    k := AdjacentRuns(s, i);
    BoundaryKeys(s, i, k);
  }

  /** The key of the last minute of run i - 1 is that run's key, and differs from run i's. */
  lemma BoundaryKeys(s: seq<MinuteBar>, i: nat, k: nat)
    requires 0 < i < |Segments(s)| && 0 < k < |s|
    requires Last(Segments(s)[i - 1]) == s[k - 1] && Segments(s)[i][0] == s[k]
    ensures KeyOf(s[k - 1].time) == KeyOf(Segments(s)[i - 1][0].time)
    ensures KeyOf(s[k - 1].time) != KeyOf(s[k].time)
  {
    var a := Segments(s)[i - 1];
    SegmentsUniform(s, i - 1);
    SegmentsDistinct(s, i);
    assert a[|a| - 1] == s[k - 1];
  }

  lemma RunTag(segs: seq<seq<MinuteBar>>, j: nat)
    requires NonEmptyRuns(segs)
    requires j < |segs|
    ensures Summaries(segs)[j].tag == KeyOf(segs[j][0].time)
  {
    if j < |segs| - 1 { RunTag(segs[..|segs| - 1], j); }
  }

  /** The last minute of a run and the first of the next are neighbours `k - 1`, `k` of the input. */
  lemma {:induction false} AdjacentRuns(s: seq<MinuteBar>, i: nat) returns (k: nat)
    requires 0 < i < |Segments(s)|
    ensures 0 < k < |s|
    ensures var segs := Segments(s); Last(segs[i - 1]) == s[k - 1] && segs[i][0] == s[k]
    decreases |s|
  {
    var init := s[..|s| - 1];
    var prev := Segments(init);
    if i < |prev| {
      k := AdjacentRuns(init, i);
    } else {
      k := |s| - 1;
    }
    AdjacentStep(s, prev, Segments(s), i, k);
  }

  /** The boundary before run i survives appending the last minute, or is made by it. */
  lemma AdjacentStep(s: seq<MinuteBar>, prev: seq<seq<MinuteBar>>, segs: seq<seq<MinuteBar>>, i: nat, k: nat)
    requires |s| > 0 && NonEmptyRuns(prev) && segs == AddMinute(prev, s[|s| - 1])
    requires 0 < i < |segs| && 0 < k < |s|
    requires i < |prev| ==> k < |s| - 1 && Last(prev[i - 1]) == s[k - 1] && prev[i][0] == s[k]
    requires i >= |prev| ==> k == |s| - 1 && Last(Last(prev)) == s[k - 1]
    ensures Last(segs[i - 1]) == s[k - 1] && segs[i][0] == s[k]
  {
    AdjacentAdd(prev, s[|s| - 1], i);
  }

  /** Where the boundary before run i of the extended runs comes from. */
  lemma AdjacentAdd(runs: seq<seq<MinuteBar>>, x: MinuteBar, i: nat)
    requires NonEmptyRuns(runs)
    requires 0 < i < |AddMinute(runs, x)|
    ensures var r := AddMinute(runs, x);
      if i < |runs| then Last(r[i - 1]) == Last(runs[i - 1]) && r[i][0] == runs[i][0]
      else Last(r[i - 1]) == Last(Last(runs)) && r[i][0] == x
  {
    var r := AddMinute(runs, x);
    if i < |runs| {
      assert r[i - 1] == runs[i - 1];
      if i == |runs| - 1 && Joins(runs, x) {
        assert r[i] == runs[i] + [x];
      }
    }
  }

  /** newest-first output of fetch_5m_candles: tags strictly decrease. */
  lemma FetchNewestFirst(s: seq<MinuteBar>)
    requires SortedByTime(s)
    ensures var bars := Reverse(Expected(s));
      forall i :: 0 < i < |bars| ==> LexLt(bars[i].tag, bars[i - 1].tag)
  {
    AggregateOrdered(s);
  }

  // ---------------------------------------------------------------------------
  // The fixture of test_manual_aggregation_logic
  // ---------------------------------------------------------------------------

  /** The first five minutes of the script's fixture, 09:00 to 09:04, rising. */
  function FixtureRise(): seq<MinuteBar> {
    [ MinuteBar("090000", 1000, 1010, 1010, 1000),
      MinuteBar("090100", 1010, 1020, 1020, 1010),
      MinuteBar("090200", 1020, 1030, 1030, 1020),
      MinuteBar("090300", 1030, 1040, 1040, 1030),
      MinuteBar("090400", 1040, 1050, 1055, 1040) ]
  }

  /** The last five minutes, 09:05 to 09:09, falling. */
  function FixtureFall(): seq<MinuteBar> {
    [ MinuteBar("090500", 1050, 1040, 1050, 1040),
      MinuteBar("090600", 1040, 1030, 1040, 1030),
      MinuteBar("090700", 1030, 1020, 1030, 1020),
      MinuteBar("090800", 1020, 1010, 1020, 1010),
      MinuteBar("090900", 1010, 1000, 1010, 990) ]
  }

  function Fixture(): seq<MinuteBar> {
    FixtureRise() + FixtureFall()
  }

  /** A key-uniform input is a single run. */
  lemma {:induction false} SingleRun(s: seq<MinuteBar>)
    requires UniformKey(s)
    ensures Segments(s) == [s]
    decreases |s|
  {
    var init: seq<MinuteBar>, x: MinuteBar := s[..|s| - 1], s[|s| - 1];
    Snoc(s);
    SegmentsSnoc(init, x);
    if |s| > 1 {
      UniformPrefix(s);
      SingleRun(init);
      assert Joins([init], x);
    }
  }

  lemma UniformPrefix(s: seq<MinuteBar>)
    requires UniformKey(s) && |s| > 1
    ensures UniformKey(s[..|s| - 1]) && s[..|s| - 1][0] == s[0]
    ensures KeyOf(s[|s| - 1].time) == KeyOf(s[0].time)
  {
    var init := s[..|s| - 1];
    assert forall k :: 0 <= k < |init| ==> init[k] == s[k];
  }

  /** Two key-uniform blocks with different keys, one after the other, are two runs. */
  lemma {:induction false} TwoRuns(a: seq<MinuteBar>, b: seq<MinuteBar>)
    requires UniformKey(a) && UniformKey(b)
    requires KeyOf(a[0].time) != KeyOf(b[0].time)
    ensures Segments(a + b) == [a, b]
    decreases |b|
  {
    if |b| == 1 {
      TwoRunsStart(a, b);
    } else {
      UniformPrefix(b);
      TwoRuns(a, b[..|b| - 1]);
      TwoRunsGrow(a, b);
    }
  }

  /** The first minute with another key opens the second run. */
  lemma TwoRunsStart(a: seq<MinuteBar>, b: seq<MinuteBar>)
    requires UniformKey(a) && |b| == 1
    requires KeyOf(a[0].time) != KeyOf(b[0].time)
    ensures Segments(a + b) == [a, b]
  {
    SplitLast(a, b);
    SegmentsSnoc(a + b[..0], b[0]);
    SingleRun(a);
    OpenSecond(a, b);
  }

  /** A minute whose key differs from the only run's opens a second run. */
  lemma OpenSecond(a: seq<MinuteBar>, b: seq<MinuteBar>)
    requires |a| > 0 && |b| == 1 && KeyOf(a[0].time) != KeyOf(b[0].time)
    ensures a + b[..0] == a
    ensures AddMinute([a], b[0]) == [a, b]
  {
    assert !Joins([a], b[0]);
    assert b == [b[0]];
  }

  /** A minute with the second run's key extends that run. */
  lemma AddToSecond(a: seq<MinuteBar>, rest: seq<MinuteBar>, x: MinuteBar)
    requires |rest| > 0 && KeyOf(rest[0].time) == KeyOf(x.time)
    ensures AddMinute([a, rest], x) == [a, rest + [x]]
  {
    var runs := [a, rest];
    assert Last(runs) == rest;
    assert Joins(runs, x);
    assert runs[..1] == [a];
  }

  /** A non-empty sequence is its prefix followed by its last element. */
  lemma Snoc<T>(s: seq<T>)
    requires |s| > 0
    ensures s == s[..|s| - 1] + [s[|s| - 1]]
  {
  }

  /** Splitting off the last element of the second part of a concatenation. */
  lemma SplitLast<T>(a: seq<T>, b: seq<T>)
    requires |b| > 0
    ensures b == b[..|b| - 1] + [b[|b| - 1]]
    ensures a + b == (a + b[..|b| - 1]) + [b[|b| - 1]]
  {
    assert b == b[..|b| - 1] + [b[|b| - 1]];
  }

  /** A further minute with the second run's key joins it. */
  lemma TwoRunsGrow(a: seq<MinuteBar>, b: seq<MinuteBar>)
    requires UniformKey(b) && |b| > 1 && |a| > 0
    requires Segments(a + b[..|b| - 1]) == [a, b[..|b| - 1]]
    ensures Segments(a + b) == [a, b]
  {
    var rest, x := b[..|b| - 1], b[|b| - 1];
    SplitLast(a, b);
    var ar := a + rest;
    SegmentsSnoc(ar, x);
    UniformPrefix(b);
    AddToSecond(a, rest, x);
  }

  lemma FixtureKeys()
    ensures UniformKey(FixtureRise()) && KeyOf(FixtureRise()[0].time) == "0900"
    ensures UniformKey(FixtureFall()) && KeyOf(FixtureFall()[0].time) == "0905"
  {
  }

  /** Summarize one bar at a time, left to right. */
  lemma SummarizePrefix(s: seq<MinuteBar>, n: nat)
    requires 0 < n < |s|
    ensures var b, x := Summarize(s[..n]), s[n];
      Summarize(s[..n + 1]) == Bar(b.open, if x.high > b.high then x.high else b.high,
                                   if x.low < b.low then x.low else b.low, x.close, b.tag)
  {
    assert s[..n + 1] == s[..n] + [s[n]];
    SummarizeSnoc(s[..n], s[n]);
  }

  lemma FixtureRiseBar()
    ensures Summarize(FixtureRise()) == Bar(1000, 1055, 1000, 1050, "0900")
  {
    var a := FixtureRise();
    assert Summarize(a[..1]) == Bar(1000, 1010, 1000, 1010, "0900");
    SummarizePrefix(a, 1);
    SummarizePrefix(a, 2);
    SummarizePrefix(a, 3);
    SummarizePrefix(a, 4);
    assert a[..5] == a;
  }

  lemma FixtureFallBar()
    ensures Summarize(FixtureFall()) == Bar(1050, 1050, 990, 1000, "0905")
  {
    var b := FixtureFall();
    assert Summarize(b[..1]) == Bar(1050, 1050, 1040, 1040, "0905");
    SummarizePrefix(b, 1);
    SummarizePrefix(b, 2);
    SummarizePrefix(b, 3);
    SummarizePrefix(b, 4);
    assert b[..5] == b;
  }

  /** Adjacent order is enough for sortedness, because LexLe is transitive. */
  lemma {:induction false} AdjacentSorted(s: seq<MinuteBar>)
    requires forall i :: 0 < i < |s| ==> LexLe(s[i - 1].time, s[i].time)
    ensures SortedByTime(s)
    decreases |s|
  {
    if |s| > 1 {
      var init := s[..|s| - 1];
      assert forall i :: 0 <= i < |init| ==> init[i] == s[i];
      AdjacentSorted(init);
      forall i | 0 <= i < |s| - 1 ensures LexLe(s[i].time, s[|s| - 1].time) {
        if i < |s| - 2 {
          assert LexLe(init[i].time, init[|s| - 2].time);
          LexLeTransitive(s[i].time, s[|s| - 2].time, s[|s| - 1].time);
        }
      }
    }
  }

  /** Strings that agree up to position k and differ upward there are in order. */
  lemma {:induction false} LexLeAt(a: string, b: string, k: nat)
    requires k < |a| && k < |b| && a[..k] == b[..k] && a[k] < b[k]
    ensures LexLe(a, b)
    decreases k
  {
    if k > 0 {
      assert a[0] == a[..k][0] == b[..k][0] == b[0];
      assert a[1..][..k - 1] == a[1..k] == b[1..k] == b[1..][..k - 1];
      LexLeAt(a[1..], b[1..], k - 1);
    }
  }

  lemma FixtureSorted()
    ensures SortedByTime(Fixture())
  {
    var f := Fixture();
    forall i | 0 < i < |f| ensures LexLe(f[i - 1].time, f[i].time) {
      assert f[i - 1].time[..3] == "090" == f[i].time[..3];
      LexLeAt(f[i - 1].time, f[i].time, 3);
    }
    AdjacentSorted(f);
  }

  /** Ten rising-then-falling minutes give exactly the two bars the script checks. */
  lemma FixtureGivesTwoBars()
    ensures SortedByTime(Fixture())
    ensures Expected(Fixture()) ==
      [Bar(1000, 1055, 1000, 1050, "0900"), Bar(1050, 1050, 990, 1000, "0905")]
  {
    FixtureSorted();
    FixtureKeys();
    var a, b := FixtureRise(), FixtureFall();
    TwoRuns(a, b);
    assert Segments(Fixture()) == [a, b];
    FixtureRiseBar();
    FixtureFallBar();
    SummariesSnoc([], a);
    assert [] + [a] == [a];
    SummariesSnoc([a], b);
    assert [a] + [b] == [a, b];
    var all := Summaries([a, b]);
    assert all == [Summarize(a), Summarize(b)];
  }
}
