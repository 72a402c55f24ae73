/**
 * The per-position exit rules of the monitoring loop (trading_bot.py,
 * monitor_portfolio, lines 771-991): one quote in, the updated position and
 * at most one decision out. The rules are tried in a fixed order and the
 * first that fires wins.
 */
module ExitRules {
  import opened Options
  import opened TimeKeys
  import opened Candles
  import opened Positions

  /** What the scan does with one position: keep it, queue a full sale, send a partial sale, or crash. */
  datatype Action = Hold | Sell(reason: ExitReason) | PartialSell(qty: nat) | Fault

  datatype Verdict = Verdict(pos: Position, action: Action)

  // ---------------------------------------------------------------------------
  // Statistics kept for the trade log
  // ---------------------------------------------------------------------------

  /**
   * Seed the statistics from the first quote if absent, then raise the price
   * high, lower the price low and raise the flow high with this quote.
   */
  function Observe(st: Option<Stats>, price: int, pg: int): (s: Stats)
    ensures s.maxPrice >= price as real && s.minPrice <= price as real && s.maxPg >= pg
    ensures st.Some? ==>
      && s.entryPg == st.value.entryPg
      && s.maxPrice >= st.value.maxPrice && (s.maxPrice == price as real || s.maxPrice == st.value.maxPrice)
      && s.minPrice <= st.value.minPrice && (s.minPrice == price as real || s.minPrice == st.value.minPrice)
      && s.maxPg >= st.value.maxPg && (s.maxPg == pg || s.maxPg == st.value.maxPg)
    ensures st.None? ==> s == Stats(pg, pg, price as real, price as real)
  {
    var px := price as real;
    var b := if st.Some? then st.value else Stats(pg, pg, px, px);
    Stats(b.entryPg,
          if pg > b.maxPg then pg else b.maxPg,
          if px > b.maxPrice then px else b.maxPrice,
          if px < b.minPrice then px else b.minPrice)
  }

  // ---------------------------------------------------------------------------
  // Trend reversal on completed 5-minute bars
  // ---------------------------------------------------------------------------

  /** How many recent bars to inspect and how many bearish steps among them trigger an exit. */
  datatype Window = Window(size: nat, threshold: nat)

  function TrendWindow(hour: Hour, minute: Minute): Window {
    if 9 <= hour < 11 || (hour == 11 && minute < 30) then Window(6, 4)
    else if (hour == 11 && minute >= 30) || (12 <= hour < 15) || (hour == 15 && minute <= 20) then Window(12, 8)
    else Window(0, 0)
  }

  /** By minute of the day: 6/4 from 09:00 to 11:29, 12/8 from 11:30 to 15:20, no check otherwise. */
  lemma TrendWindowByMinuteOfDay(hour: Hour, minute: Minute)
    ensures var t, w := hour * 60 + minute, TrendWindow(hour, minute);
      && (540 <= t < 690 ==> w == Window(6, 4))
      && (690 <= t <= 920 ==> w == Window(12, 8))
      && (t < 540 || t > 920 ==> w.size == 0)
  {
  }

  /** A bearish step: the bar closes below its open and below the previous close. */
  predicate Bearish(prev: Bar, curr: Bar) {
    curr.open > curr.close && curr.close < prev.close
  }

  /** Number of positions i in 1..|bars|-1 where bars[i] is a bearish step after bars[i-1]. */
  function BearishCount(bars: seq<Bar>): (n: nat)
    ensures |bars| <= 1 ==> n == 0
    ensures |bars| > 0 ==> n <= |bars| - 1
    decreases |bars|
  {
    if |bars| < 2 then 0
    else
      var init := bars[..|bars| - 1];
      BearishCount(init) + (if Bearish(bars[|bars| - 2], bars[|bars| - 1]) then 1 else 0)
  }

  /** The count reaches its maximum exactly when every step is bearish. */
  lemma {:induction false} BearishCountAll(bars: seq<Bar>)
    requires |bars| > 0
    ensures BearishCount(bars) == |bars| - 1 <==> forall i :: 0 < i < |bars| ==> Bearish(bars[i - 1], bars[i])
    decreases |bars|
  {
    if |bars| >= 2 {
      var init := bars[..|bars| - 1];
      BearishCountAll(init);
      assert forall i :: 0 <= i < |init| ==> init[i] == bars[i];
    }
  }

  /** The source's counting loop over the inspected bars. */
  method CountBearish(target: seq<Bar>) returns (count: nat)
    ensures count == BearishCount(target)
  {
    count := 0;
    if |target| < 2 {
      return;
    }
    for i := 1 to |target|
      invariant count == BearishCount(target[..i])
    {
      assert target[..i + 1][..i] == target[..i];
      if target[i].open > target[i].close && target[i].close < target[i - 1].close {
        count := count + 1;
      }
    }
    assert target[..|target|] == target;
  }

  /** The last `n` bars, oldest first. */
  function Recent(history: seq<Bar>, n: nat): (t: seq<Bar>)
    requires n <= |history|
    ensures |t| == n && forall i :: 0 <= i < n ==> t[i] == history[|history| - n + i]
  {
    history[|history| - n..]
  }

  /**
   * The trend exit: with at least `size` completed bars, enough bearish steps
   * among the last `size` and a last close below the first open.
   */
  predicate TrendBreaks(history: seq<Bar>, w: Window) {
    && w.size > 0
    && |history| >= w.size
    && var t := Recent(history, w.size);
       BearishCount(t) >= w.threshold && t[w.size - 1].close < t[0].open
  }

  /** The decision as the monitoring loop computes it. */
  method CheckTrend(history: seq<Bar>, w: Window) returns (fire: bool)
    ensures fire == TrendBreaks(history, w)
  {
    if w.size > 0 && |history| >= w.size {
      var target := history[|history| - w.size..];
      var count := CountBearish(target);
      fire := count >= w.threshold && target[w.size - 1].close < target[0].open;
    } else {
      fire := false;
    }
  }

  /** Needing `threshold` bearish steps among `size` bars, the window must hold more than `threshold` bars. */
  lemma TrendNeedsEnoughBars(history: seq<Bar>, w: Window)
    requires TrendBreaks(history, w)
    ensures |history| >= w.size > w.threshold
  {
    assert BearishCount(Recent(history, w.size)) <= w.size - 1;
  }

  // ---------------------------------------------------------------------------
  // Ratios
  // ---------------------------------------------------------------------------

  /** `(price - ref) / ref`, exact. */
  function ProfitRate(price: int, ref: real): (r: real)
    requires ref != 0.0
    ensures r * ref == price as real - ref
  {
    (price as real - ref) / ref
  }

  /** The flow-drop test: the flow is more than 30% below its peak. */
  predicate FlowDropped(pg: int, peak: int) {
    peak > 0 && (pg as real) < (peak as real) * (1.0 - PgDropRateTrigger)
  }

  lemma FlowDroppedInIntegers(pg: int, peak: int)
    ensures FlowDropped(pg, peak) <==> peak > 0 && 10 * pg < 7 * peak
  {
  }

  /** The trailing-stop gap: tight when bids outweigh asks more than twice, else normal. */
  function StopGap(q: Quote): real {
    if q.totalAsk > 0 && (q.totalBid as real) > (q.totalAsk as real) * 2.0 then TsTightGap else TsStopGap
  }

  function StopLossLine(s: Strategy): real {
    if s == Morning then MorningStopLossRate else StopLossRate
  }

  function ElapsedMinutes(p: Position, clock: Clock): real {
    (clock.now - p.buyTime) as real / 60.0
  }

  // ---------------------------------------------------------------------------
  // The rules
  // ---------------------------------------------------------------------------

  /** Rule 1: a THEME position whose leader has come off its daily limit price. */
  predicate LeaderUnlockedRule(p: Position, leader: Option<Quote>) {
    p.strategy == Theme && leader.Some? && leader.value.maxPrice > 0 && leader.value.price < leader.value.maxPrice
  }

  /** The rules after the limit-up check; `p.maxProfitRate` already holds the updated high-water mark. */
  function LateRules(p: Position, q: Quote, profit: real, clock: Clock): Action {
    var mark := p.maxProfitRate;
    if mark >= TsTriggerRate && profit <= mark - StopGap(q) then Sell(TrailingStop)
    else if p.hasPartialSold && mark < TsTriggerRate && profit <= 0.0 then Sell(GiveBack)
    else if ElapsedMinutes(p, clock) >= TimeStopMinutes as real && profit <= TimeStopProfit then Sell(TimeStop)
    else if profit <= StopLossLine(p.strategy) then Sell(StopLoss)
    else if !p.hasPartialSold && profit >= PartialProfitRate then
      var half := p.qty / 2;
      if half == 0 && p.qty > 0 then Sell(SmallLotTake)
      else if half > 0 then PartialSell(half)
      else Hold
    else Hold
  }

  /** Limit-up, then the high-water mark update, then the later rules. */
  function CommonRules(p: Position, q: Quote, profit: real, clock: Clock): (v: Verdict)
    ensures v.pos == p.(maxProfitRate := v.pos.maxProfitRate) && v.pos.maxProfitRate >= p.maxProfitRate
    ensures v.action.PartialSell? ==> v.action.qty == p.qty / 2 > 0
  {
    if q.price >= q.maxPrice then Verdict(p, Sell(LimitUp))
    else
      var marked := p.(maxProfitRate := if profit > p.maxProfitRate then profit else p.maxProfitRate);
      Verdict(marked, LateRules(marked, q, profit, clock))
  }

  /**
   * PROGRAM positions: raise the flow peak, test the flow drop, feed the
   * candle memory, test the trend on completed bars, then the common rules.
   */
  function ProgramRules(p: Position, q: Quote, profit: real, clock: Clock): (v: Verdict)
    ensures v.pos == p.(maxProfitRate := v.pos.maxProfitRate, maxPgAmt := v.pos.maxPgAmt, candles := v.pos.candles)
    ensures v.pos.maxProfitRate >= p.maxProfitRate && v.pos.maxPgAmt >= p.maxPgAmt
    ensures v.action.PartialSell? ==> v.action.qty == p.qty / 2 > 0
  {
    var pg := FlowAmount(q);
    var peaked := p.(maxPgAmt := if pg > p.maxPgAmt then pg else p.maxPgAmt);
    if FlowDropped(pg, peaked.maxPgAmt) then Verdict(peaked, Sell(FlowDrop))
    else
      var fed := peaked.(candles := Advance(peaked.candles, BucketKey(clock.hour, clock.minute), q.price));
      if TrendBreaks(fed.candles.history, TrendWindow(clock.hour, clock.minute)) then Verdict(fed, Sell(TrendBreak))
      else CommonRules(fed, q, profit, clock)
  }

  /**
   * One position's turn in the scan, given the leader's quote and its own
   * (None when the fetch failed). A zero reference price is the division by
   * zero at the profit computation, which aborts the whole loop: `Fault`.
   */
  function Evaluate(p: Position, leader: Option<Quote>, own: Option<Quote>, clock: Clock): (v: Verdict)
    ensures v.pos == p.(stats := v.pos.stats, maxProfitRate := v.pos.maxProfitRate,
                         maxPgAmt := v.pos.maxPgAmt, candles := v.pos.candles)
    ensures v.pos.maxProfitRate >= p.maxProfitRate
    ensures v.pos.maxPgAmt >= p.maxPgAmt
    ensures p.strategy != Program ==> v.pos.maxPgAmt == p.maxPgAmt && v.pos.candles == p.candles
    ensures (LeaderUnlockedRule(p, leader) || own.None?) ==> v.pos == p
    ensures v.action.PartialSell? ==> v.action.qty == p.qty / 2 > 0
  {
    if LeaderUnlockedRule(p, leader) then Verdict(p, Sell(LeaderUnlocked))
    else if own.None? then Verdict(p, Hold)
    else
      var q := own.value;
      var observed := p.(stats := Some(Observe(p.stats, q.price, FlowAmount(q))));
      if p.refPrice == 0.0 then Verdict(observed, Fault)
      else
        var profit := ProfitRate(q.price, p.refPrice);
        if p.strategy == Program then ProgramRules(observed, q, profit, clock)
        else CommonRules(observed, q, profit, clock)
  }

  /** Apply the outcome of a partial-sale order: on success, sell exactly `qty` and set the flag. */
  function Settle(v: Verdict, filled: bool): (p: Position)
    requires v.action.PartialSell? ==> v.action.qty <= v.pos.qty
    ensures !v.action.PartialSell? || !filled ==> p == v.pos
    ensures v.action.PartialSell? && filled ==>
      p.qty + v.action.qty == v.pos.qty && p.hasPartialSold && p == v.pos.(qty := p.qty, hasPartialSold := true)
  {
    if v.action.PartialSell? && filled then v.pos.(qty := v.pos.qty - v.action.qty, hasPartialSold := true)
    else v.pos
  }

  // ---------------------------------------------------------------------------
  // Properties
  // ---------------------------------------------------------------------------

  /** A position reached by the quote-driven rules: no leader exit, a quote, a usable reference price. */
  predicate Quoted(p: Position, leader: Option<Quote>, own: Option<Quote>) {
    !LeaderUnlockedRule(p, leader) && own.Some? && p.refPrice != 0.0
  }

  /** The statistics are updated from every quote before any rule runs, including when a rule then fires. */
  lemma StatsUpdatedFirst(p: Position, leader: Option<Quote>, own: Option<Quote>, clock: Clock)
    requires !LeaderUnlockedRule(p, leader) && own.Some?
    ensures var v, q := Evaluate(p, leader, own, clock), own.value;
      v.pos.stats == Some(Observe(p.stats, q.price, FlowAmount(q)))
  {
  }

  /** The reference price is zero exactly when the turn crashes. */
  lemma FaultExactlyOnZeroReference(p: Position, leader: Option<Quote>, own: Option<Quote>, clock: Clock)
    ensures Evaluate(p, leader, own, clock).action == Fault <==>
      !LeaderUnlockedRule(p, leader) && own.Some? && p.refPrice == 0.0
  {
    if Quoted(p, leader, own) {
      var q := own.value;
      var profit := ProfitRate(q.price, p.refPrice);
      var observed := p.(stats := Some(Observe(p.stats, q.price, FlowAmount(q))));
      if p.strategy == Program {
        var pg := FlowAmount(q);
        var peaked := observed.(maxPgAmt := if pg > observed.maxPgAmt then pg else observed.maxPgAmt);
        if !FlowDropped(pg, peaked.maxPgAmt) {
          var fed := peaked.(candles := Advance(peaked.candles, BucketKey(clock.hour, clock.minute), q.price));
          assert ProgramRules(observed, q, profit, clock).action != Fault by {
            if !TrendBreaks(fed.candles.history, TrendWindow(clock.hour, clock.minute)) {
              assert CommonRules(fed, q, profit, clock).action != Fault;
            }
          }
        }
      } else {
        assert CommonRules(observed, q, profit, clock).action != Fault;
      }
    }
  }

  /** The leader exit wins over everything and leaves the position untouched. */
  lemma LeaderExitFirst(p: Position, leader: Option<Quote>, own: Option<Quote>, clock: Clock)
    ensures Evaluate(p, leader, own, clock).action == Sell(LeaderUnlocked) <==> LeaderUnlockedRule(p, leader)
  {
    if Quoted(p, leader, own) {
      var q := own.value;
      var observed := p.(stats := Some(Observe(p.stats, q.price, FlowAmount(q))));
      NoLeaderReasonLater(observed, q, ProfitRate(q.price, p.refPrice), clock);
    }
  }

  lemma NoLeaderReasonLater(p: Position, q: Quote, profit: real, clock: Clock)
    ensures CommonRules(p, q, profit, clock).action != Sell(LeaderUnlocked)
    ensures ProgramRules(p, q, profit, clock).action != Sell(LeaderUnlocked)
  {
    var pg := FlowAmount(q);
    var peaked := p.(maxPgAmt := if pg > p.maxPgAmt then pg else p.maxPgAmt);
    var fed := peaked.(candles := Advance(peaked.candles, BucketKey(clock.hour, clock.minute), q.price));
    assert CommonRules(fed, q, profit, clock).action != Sell(LeaderUnlocked);
  }

  /** Only PROGRAM positions can leave on the flow or trend rules. */
  lemma FlowAndTrendOnlyForProgram(p: Position, leader: Option<Quote>, own: Option<Quote>, clock: Clock)
    requires p.strategy != Program
    ensures Evaluate(p, leader, own, clock).action !in {Sell(FlowDrop), Sell(TrendBreak)}
  {
    if Quoted(p, leader, own) {
      var q := own.value;
      var observed := p.(stats := Some(Observe(p.stats, q.price, FlowAmount(q))));
      assert CommonRules(observed, q, ProfitRate(q.price, p.refPrice), clock).action !in {Sell(FlowDrop), Sell(TrendBreak)};
    }
  }

  /** A PROGRAM position leaves on the flow rule exactly when its flow falls more than 30% below the raised peak. */
  lemma FlowDropExact(p: Position, leader: Option<Quote>, own: Option<Quote>, clock: Clock)
    requires p.strategy == Program && own.Some? && p.refPrice != 0.0
    ensures var v, pg := Evaluate(p, leader, own, clock), FlowAmount(own.value);
      && v.pos.maxPgAmt == (if pg > p.maxPgAmt then pg else p.maxPgAmt)
      && (v.action == Sell(FlowDrop) <==> FlowDropped(pg, v.pos.maxPgAmt))
  {
    var q := own.value;
    var profit := ProfitRate(q.price, p.refPrice);
    var observed := p.(stats := Some(Observe(p.stats, q.price, FlowAmount(q))));
    var pg := FlowAmount(q);
    var peaked := observed.(maxPgAmt := if pg > observed.maxPgAmt then pg else observed.maxPgAmt);
    if !FlowDropped(pg, peaked.maxPgAmt) {
      var fed := peaked.(candles := Advance(peaked.candles, BucketKey(clock.hour, clock.minute), q.price));
      assert CommonRules(fed, q, profit, clock).action != Sell(FlowDrop);
    }
  }

  /**
   * Within one 5-minute bucket the trend decision cannot change: it reads the
   * completed bars only, and those do not move until the bucket changes.
   */
  lemma TrendIgnoresBarInProgress(p: Position, q: Quote, profit: real, clock: Clock)
    requires InBucket(p.candles, BucketKey(clock.hour, clock.minute))
    ensures Advance(p.candles, BucketKey(clock.hour, clock.minute), q.price).history == p.candles.history
  {
  }

  /** The trailing stop, in the order the rules run for a position without flow or trend exit. */
  lemma TrailingStopExact(p: Position, q: Quote, profit: real, clock: Clock)
    ensures var v, mark := CommonRules(p, q, profit, clock), (if profit > p.maxProfitRate then profit else p.maxProfitRate);
      && (q.price < q.maxPrice ==> v.pos.maxProfitRate == mark)
      && (v.action == Sell(TrailingStop) <==>
            q.price < q.maxPrice && mark >= 0.04 && profit <= mark - StopGap(q))
      && (StopGap(q) == (if q.totalAsk > 0 && q.totalBid > 2 * q.totalAsk then 0.01 else 0.02))
  {
  }

  /** Give-back after a partial sale: the mark never reached 4% and the profit is gone. */
  lemma GiveBackExact(p: Position, q: Quote, profit: real, clock: Clock)
    ensures var v, mark := CommonRules(p, q, profit, clock), (if profit > p.maxProfitRate then profit else p.maxProfitRate);
      v.action == Sell(GiveBack) <==> q.price < q.maxPrice && p.hasPartialSold && mark < 0.04 && profit <= 0.0
  {
  }

  /**
   * The partial take: only on a position not yet partially sold, at a profit
   * of at least 2%, for half the quantity rounded down; a single share is
   * sold whole instead.
   */
  lemma PartialTakeShape(p: Position, q: Quote, profit: real, clock: Clock)
    ensures var v := CommonRules(p, q, profit, clock);
      && (v.action.PartialSell? ==>
            !p.hasPartialSold && profit >= 0.02 && p.qty >= 2 && v.action.qty == p.qty / 2)
      && (v.action == Sell(SmallLotTake) ==> !p.hasPartialSold && profit >= 0.02 && p.qty == 1)
  {
  }

  /** A position not yet partially sold, at +2% and with no earlier exit, is partially sold. */
  lemma PartialTakeFires(p: Position, q: Quote, profit: real, clock: Clock)
    requires q.price < q.maxPrice && !p.hasPartialSold && profit >= 0.02 && p.qty >= 2
    requires var mark := if profit > p.maxProfitRate then profit else p.maxProfitRate;
      !(mark >= 0.04 && profit <= mark - StopGap(q))
    ensures CommonRules(p, q, profit, clock).action == PartialSell(p.qty / 2)
  {
  }

  /** The stop-loss line is -1% for MORNING and -2% otherwise; any loss beyond it with no earlier rule exits. */
  lemma StopLossFires(p: Position, q: Quote, profit: real, clock: Clock)
    requires q.price < q.maxPrice && profit <= StopLossLine(p.strategy)
    ensures StopLossLine(p.strategy) == (if p.strategy == Morning then -0.01 else -0.02)
    ensures CommonRules(p, q, profit, clock).action in
      {Sell(TrailingStop), Sell(GiveBack), Sell(TimeStop), Sell(StopLoss)}
  {
  }

  /** The time stop: 600 minutes held, no profit. */
  lemma TimeStopExact(p: Position, q: Quote, profit: real, clock: Clock)
    requires q.price < q.maxPrice && !p.hasPartialSold
    requires var mark := if profit > p.maxProfitRate then profit else p.maxProfitRate;
      !(mark >= 0.04 && profit <= mark - StopGap(q))
    ensures CommonRules(p, q, profit, clock).action == Sell(TimeStop) <==>
      clock.now - p.buyTime >= 36000 && profit <= 0.0
  {
  }

  // ---------------------------------------------------------------------------
  // A worked scenario
  // ---------------------------------------------------------------------------

  function ScenarioEntry(): Position {
    Position("Sample", 10, 10000.0, 10000.0, None, "none", Morning, false, 0.0, false, 0, 0, 0, EmptyMemory, None)
  }

  function ScenarioQuote(price: int): Quote {
    Quote("Sample", price, 13000, 0, 100, 100)
  }

  /**
   * Bought at 10,000: at 10,500 (+5%) half of 10 shares is offered; once that
   * fills, a fall to 10,290 (+2.9%) is more than the 2% gap below the +5%
   * mark and the rest is sold by the trailing stop.
   */
  lemma ScenarioPartialThenTrailing()
    ensures var clock := Clock(10, 0, 600);
      var v1 := Evaluate(ScenarioEntry(), None, Some(ScenarioQuote(10500)), clock);
      && v1.action == PartialSell(5)
      && var p1 := Settle(v1, true);
      && p1.qty == 5 && p1.hasPartialSold && p1.maxProfitRate == 0.05
      && Evaluate(p1, None, Some(ScenarioQuote(10290)), clock).action == Sell(TrailingStop)
  {
    var clock := Clock(10, 0, 600);
    assert ProfitRate(10500, 10000.0) == 0.05;
    assert ProfitRate(10290, 10000.0) == 0.029;
  }
}
