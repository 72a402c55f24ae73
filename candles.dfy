/**
 * The per-position candle memory: 5-minute OHLC bars synthesized from the
 * prices the monitoring loop polls (trading_bot.py, update_candle_memory).
 */
module Candles {
  import opened Options
  import opened TimeKeys

  /** Completed bars kept per position; the oldest is dropped first. */
  const HistoryCap: nat := 20

  datatype Bar = Bar(open: int, high: int, low: int, close: int, tag: string)

  /**
   * `history` is oldest-first; `current` is the bar being built. The source's
   * `last_bucket` is always set together with `current` and equals its `time`
   * tag, so it is represented by `current.value.tag`.
   */
  datatype CandleMemory = CandleMemory(history: seq<Bar>, current: Option<Bar>)

  const EmptyMemory: CandleMemory := CandleMemory([], None)

  predicate WellFormedBar(b: Bar) {
    b.low <= b.open <= b.high && b.low <= b.close <= b.high
  }

  function Flat(price: int, tag: string): (b: Bar)
    ensures WellFormedBar(b) && b.tag == tag
  {
    Bar(price, price, price, price, tag)
  }

  /** Append a completed bar; keep at most `HistoryCap` by popping the oldest once. */
  function Push(history: seq<Bar>, bar: Bar): (h: seq<Bar>)
  {
    var appended := history + [bar];
    if |appended| > HistoryCap then appended[1..] else appended
  }

  /** The bar after one more price in the same bucket; `open` never changes. */
  function Extend(b: Bar, price: int): Bar {
    var high := if price > b.high then price else b.high;
    var low := if price < b.low then price else b.low;
    Bar(b.open, high, low, price, b.tag)
  }

  predicate InBucket(mem: CandleMemory, key: string) {
    mem.current.Some? && mem.current.value.tag == key
  }

  /** One call of update_candle_memory with the bucket key of "now" and the polled price. */
  function Advance(mem: CandleMemory, key: string, price: int): (m: CandleMemory)
    ensures m.current.Some? && m.current.value.tag == key && m.current.value.close == price
  {
    if !InBucket(mem, key) then
      var history := if mem.current.Some? then Push(mem.history, mem.current.value) else mem.history;
      CandleMemory(history, Some(Flat(price, key)))
    else
      CandleMemory(mem.history, Some(Extend(mem.current.value, price)))
  }

  // ---------------------------------------------------------------------------
  // Properties
  // ---------------------------------------------------------------------------

  lemma PushBounded(history: seq<Bar>, bar: Bar)
    requires |history| <= HistoryCap
    ensures var h := Push(history, bar);
      |h| == (if |history| == HistoryCap then HistoryCap else |history| + 1)
      && h[|h| - 1] == bar
      && h[..|h| - 1] == (if |history| == HistoryCap then history[1..] else history)
  {
  }

  /** Same bucket: open kept, close is the new price, high/low are running max/min, history untouched. */
  lemma AdvanceSameBucket(mem: CandleMemory, key: string, price: int)
    requires InBucket(mem, key)
    ensures var m := Advance(mem, key, price); var b, c := mem.current.value, m.current.value;
      && m.history == mem.history
      && c.open == b.open && c.close == price && c.tag == b.tag
      && c.high == (if price > b.high then price else b.high)
      && c.low == (if price < b.low then price else b.low)
  {
  }

  /**
   * New bucket: the previous in-progress bar (if any) is appended to the
   * history, the oldest bar is dropped beyond the cap, and a flat bar opens.
   */
  lemma AdvanceNewBucket(mem: CandleMemory, key: string, price: int)
    requires !InBucket(mem, key)
    requires |mem.history| <= HistoryCap
    ensures var m := Advance(mem, key, price);
      && m.current == Some(Bar(price, price, price, price, key))
      && |m.history| <= HistoryCap
      && (mem.current.None? ==> m.history == mem.history)
      && (mem.current.Some? ==>
            m.history[|m.history| - 1] == mem.current.value
            && m.history[..|m.history| - 1] ==
                 (if |mem.history| == HistoryCap then mem.history[1..] else mem.history))
  {
    if mem.current.Some? { PushBounded(mem.history, mem.current.value); }
  }

  /** Polling twice in one interval with the same price closes no bar. */
  lemma AdvanceIdempotent(mem: CandleMemory, key: string, price: int)
    ensures Advance(Advance(mem, key, price), key, price) == Advance(mem, key, price)
  {
    var m := Advance(mem, key, price);
    var b := m.current.value;
    assert InBucket(m, key);
    assert b.low <= price <= b.high by {
      if InBucket(mem, key) { } else { assert b == Flat(price, key); }
    }
  }

  predicate MemoryWellFormed(mem: CandleMemory) {
    && |mem.history| <= HistoryCap
    && (forall i :: 0 <= i < |mem.history| ==> WellFormedBar(mem.history[i]))
    && (mem.current.Some? ==> WellFormedBar(mem.current.value))
  }

  /** The cap and low <= open, close <= high hold for every bar after every update. */
  lemma AdvancePreservesWellFormed(mem: CandleMemory, key: string, price: int)
    requires MemoryWellFormed(mem)
    ensures MemoryWellFormed(Advance(mem, key, price))
  {
    var m := Advance(mem, key, price);
    if !InBucket(mem, key) && mem.current.Some? {
      PushBounded(mem.history, mem.current.value);
      var h := mem.history + [mem.current.value];
      assert forall i :: 0 <= i < |h| ==> WellFormedBar(h[i]);
    }
  }

  // ---------------------------------------------------------------------------
  // A run of prices inside one bucket
  // ---------------------------------------------------------------------------

  function SeqMax(s: seq<int>): int
    requires |s| > 0
  {
    if |s| == 1 then s[0] else var m := SeqMax(s[..|s| - 1]); if s[|s| - 1] > m then s[|s| - 1] else m
  }

  function SeqMin(s: seq<int>): int
    requires |s| > 0
  {
    if |s| == 1 then s[0] else var m := SeqMin(s[..|s| - 1]); if s[|s| - 1] < m then s[|s| - 1] else m
  }

  /** Feed the prices one by one, all under the same bucket key. */
  function AdvanceAll(mem: CandleMemory, key: string, prices: seq<int>): CandleMemory
    decreases |prices|
  {
    if |prices| == 0 then mem
    else Advance(AdvanceAll(mem, key, prices[..|prices| - 1]), key, prices[|prices| - 1])
  }

  /**
   * Every sequence of prices polled inside one bucket, starting a fresh bar:
   * open is the first price, close the last, high the maximum, low the minimum,
   * and at most one bar (the previous in-progress one) reaches the history.
   */
  lemma {:induction false} AdvanceAllInBucket(mem: CandleMemory, key: string, prices: seq<int>)
    requires |prices| > 0
    requires !InBucket(mem, key)
    ensures var m := AdvanceAll(mem, key, prices);
      && m.current.Some?
      && m.current.value == Bar(prices[0], SeqMax(prices), SeqMin(prices), prices[|prices| - 1], key)
      && m.history == AdvanceAll(mem, key, prices[..1]).history
    decreases |prices|
  {
    if |prices| == 1 {
      assert prices[..0] == [];
    } else {
      var init := prices[..|prices| - 1];
      AdvanceAllInBucket(mem, key, init);
      assert init[..1] == prices[..1];
      assert init[0] == prices[0];
    }
  }

  // ---------------------------------------------------------------------------
  // Ordering of the history
  // ---------------------------------------------------------------------------

  /** The tags of the history followed by the in-progress bar, oldest first. */
  function Tags(mem: CandleMemory): seq<string> {
    seq(|mem.history|, i requires 0 <= i < |mem.history| => mem.history[i].tag)
      + (if mem.current.Some? then [mem.current.value.tag] else [])
  }

  predicate StrictlyIncreasing(tags: seq<string>) {
    forall i :: 0 < i < |tags| ==> LexLt(tags[i - 1], tags[i])
  }

  /**
   * When the clock does not run backwards (each key is at or after the tag of
   * the bar in progress), the bars stay ordered oldest to newest. A memory
   * without a bar in progress is the empty one a position starts with.
   */
  lemma AdvanceKeepsOrder(mem: CandleMemory, key: string, price: int)
    requires StrictlyIncreasing(Tags(mem))
    requires mem.current.None? ==> mem.history == []
    requires mem.current.Some? ==> LexLe(mem.current.value.tag, key)
    ensures StrictlyIncreasing(Tags(Advance(mem, key, price)))
  {
    var m := Advance(mem, key, price);
    var t, u := Tags(mem), Tags(m);
    if InBucket(mem, key) {
      assert u == t;
    } else if mem.current.None? {
      assert u == [key];
    } else {
      assert LexLt(t[|t| - 1], key);
      var full := t + [key];
      assert StrictlyIncreasing(full) by {
        forall i | 0 < i < |full| ensures LexLt(full[i - 1], full[i]) {
          if i < |t| { assert full[i - 1] == t[i - 1] && full[i] == t[i]; }
        }
      }
      if |mem.history| + 1 > HistoryCap {
        assert u == full[1..];
      } else {
        assert u == full;
      }
    }
  }
}
