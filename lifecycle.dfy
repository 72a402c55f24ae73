/**
 * Entering positions: slot accounting, the program-flow milestone level,
 * order sizing, the bookkeeping of execute_buy (trading_bot.py:1009-1179) and
 * the PROGRAM screen's entry gate (trading_bot.py:1539-1603).
 */
module Lifecycle {
  import opened Options
  import opened TimeKeys
  import opened Candles
  import opened Positions
  import opened Ledger

  // ---------------------------------------------------------------------------
  // Slots
  // ---------------------------------------------------------------------------

  /** A position at pyramid level L occupies L + 1 slots. */
  function SlotCost(p: Position): int {
    p.pyramidLevel + 1
  }

  /** Slots used by the positions whose codes are in `codes`, summed in any order. */
  ghost function SlotsOver(portfolio: Portfolio, codes: set<string>): int
    requires codes <= portfolio.Keys
  {
    if codes == {} then 0
    else
      var k :| k in codes;
      SlotCost(portfolio[k]) + SlotsOver(portfolio, codes - {k})
  }

  /** `get_current_slots_used`: the sum of level + 1 over the portfolio. */
  ghost function TotalSlots(portfolio: Portfolio): int {
    SlotsOver(portfolio, portfolio.Keys)
  }

  /** The sum does not depend on which code is taken first. */
  lemma {:induction false} SlotsOverRemove(portfolio: Portfolio, codes: set<string>, k: string)
    requires codes <= portfolio.Keys && k in codes
    ensures SlotsOver(portfolio, codes) == SlotCost(portfolio[k]) + SlotsOver(portfolio, codes - {k})
    decreases codes
  {
    var j :| j in codes && SlotsOver(portfolio, codes) == SlotCost(portfolio[j]) + SlotsOver(portfolio, codes - {j});
    if j != k {
      SlotsOverRemove(portfolio, codes - {j}, k);
      SlotsOverRemove(portfolio, codes - {k}, j);
      assert codes - {j} - {k} == codes - {k} - {j};
    }
  }

  /** With no negative level, every position takes at least one slot. */
  lemma {:induction false} SlotsOverAtLeastCount(portfolio: Portfolio, codes: set<string>)
    requires codes <= portfolio.Keys
    requires forall c :: c in codes ==> portfolio[c].pyramidLevel >= 0
    ensures SlotsOver(portfolio, codes) >= |codes|
    decreases codes
  {
    if codes != {} {
      var k :| k in codes;
      SlotsOverRemove(portfolio, codes, k);
      SlotsOverAtLeastCount(portfolio, codes - {k});
    }
  }

  function AtLevel(p: Position, level: int): Position {
    p.(pyramidLevel := level)
  }

  /** Three positions at levels 0, 1 and 0 use four slots. */
  lemma SlotsExample(p: Position)
    ensures TotalSlots(map["A" := AtLevel(p, 0), "B" := AtLevel(p, 1), "C" := AtLevel(p, 0)]) == 4
  {
    var m := map["A" := AtLevel(p, 0), "B" := AtLevel(p, 1), "C" := AtLevel(p, 0)];
    assert m.Keys == {"A", "B", "C"};
    SlotsOverRemove(m, {"A", "B", "C"}, "A");
    assert {"A", "B", "C"} - {"A"} == {"B", "C"};
    SlotsOverRemove(m, {"B", "C"}, "B");
    assert {"B", "C"} - {"B"} == {"C"};
    SlotsOverRemove(m, {"C"}, "C");
    assert {"C"} - {"C"} == {};
  }

  // ---------------------------------------------------------------------------
  // Milestone level of a program-flow amount
  // ---------------------------------------------------------------------------

  lemma MilestonesAscending()
    ensures forall i, j :: 0 <= i < j < |PgMilestones| ==> PgMilestones[i] < PgMilestones[j]
  {
  }

  /** The index of the last milestone at or below `amount` found scanning from `from`, as the loop returns it. */
  function MilestoneFrom(amount: int, from: nat): (idx: int)
    requires from <= |PgMilestones|
    requires forall j :: 0 <= j < from ==> PgMilestones[j] <= amount
    ensures -1 <= idx < |PgMilestones|
    ensures idx >= 0 ==> PgMilestones[idx] <= amount
    ensures idx + 1 < |PgMilestones| ==> amount < PgMilestones[idx + 1]
    decreases |PgMilestones| - from
  {
    if from == |PgMilestones| then |PgMilestones| - 1
    else if amount < PgMilestones[from] then from - 1
    else MilestoneFrom(amount, from + 1)
  }

  /**
   * `get_pg_milestone_index`: -1 below the first milestone, otherwise the
   * index of the largest milestone not above the amount.
   */
  function MilestoneIndex(amount: int): (idx: int)
    ensures -1 <= idx < |PgMilestones|
    ensures idx >= 0 ==> PgMilestones[idx] <= amount
    ensures idx + 1 < |PgMilestones| ==> amount < PgMilestones[idx + 1]
  {
    MilestoneFrom(amount, 0)
  }

  /** The scan with its early return. */
  method PgMilestoneIndex(amount: int) returns (idx: int)
    ensures idx == MilestoneIndex(amount)
  {
    for i := 0 to |PgMilestones|
      invariant forall j :: 0 <= j < i ==> PgMilestones[j] <= amount
      invariant MilestoneIndex(amount) == MilestoneFrom(amount, i)
    {
      if amount < PgMilestones[i] {
        return i - 1;
      }
    }
    return |PgMilestones| - 1;
  }

  /** Level thresholds, and larger flows never get a lower level. */
  lemma MilestoneIndexProperties(a: int, b: int)
    ensures MilestoneIndex(a) >= 0 <==> a >= PgLevel0Amt
    ensures MilestoneIndex(a) == 5 <==> a >= 200_000_000_000
    ensures a <= b ==> MilestoneIndex(a) <= MilestoneIndex(b)
  {
    MilestonesAscending();
  }

  // ---------------------------------------------------------------------------
  // Order sizing
  // ---------------------------------------------------------------------------

  /** Python's `int()` on a number: truncation toward zero. */
  function Trunc(r: real): (n: int)
    ensures r >= 0.0 ==> n as real <= r < n as real + 1.0
    ensures r < 0.0 ==> n as real - 1.0 < r <= n as real
  {
    if r >= 0.0 then r.Floor else -((-r).Floor)
  }

  function InvestAmount(asset: int): int {
    Trunc(asset as real * InvestRatio)
  }

  /** `int(invest / price)` for a positive price, else 0. */
  function OrderQty(asset: int, price: int): (q: int)
    ensures price <= 0 ==> q == 0
    ensures price > 0 && asset >= 0 ==>
      q >= 0 && q * price <= InvestAmount(asset) < (q + 1) * price
  {
    if price > 0 then
      var q := Trunc(InvestAmount(asset) as real / price as real);
      FloorOfQuotient(InvestAmount(asset), price, q);
      q
    else 0
  }

  lemma FloorOfQuotient(i: int, p: int, q: int)
    requires p > 0 && q == Trunc(i as real / p as real)
    ensures i >= 0 ==> q >= 0 && q * p <= i < (q + 1) * p
  {
    if i >= 0 {
      var r := i as real / p as real;
      QuotientNonneg(i as real, p as real);
      TruncNonneg(r, q);
      ProductBelow(q, p, r);
      ProductAbove(q + 1, p, r);
    }
  }

  lemma QuotientNonneg(a: real, b: real)
    requires a >= 0.0 && b > 0.0
    ensures a / b >= 0.0 && (a / b) * b == a
  {
    SignOfFactor(a / b, b, a);
  }

  lemma TruncNonneg(r: real, q: int)
    requires r >= 0.0 && q == Trunc(r)
    ensures q >= 0 && q as real <= r < (q + 1) as real
  {
  }

  /** From `a <= r` in reals to `a * p <= r * p` as integers. */
  lemma ProductBelow(a: int, p: int, r: real)
    requires p > 0 && a as real <= r
    ensures (a * p) as real <= r * p as real
  {
    ScaleLe(a as real, r, p as real);
    IntProduct(a, p);
  }

  lemma ProductAbove(a: int, p: int, r: real)
    requires p > 0 && r < a as real
    ensures r * p as real < (a * p) as real
  {
    ScaleLt(r, a as real, p as real);
    IntProduct(a, p);
  }

  lemma IntProduct(a: int, b: int)
    ensures (a * b) as real == a as real * b as real
  {
  }

  lemma ScaleLe(a: real, b: real, c: real)
    requires a <= b && c > 0.0
    ensures a * c <= b * c
  {
  }

  lemma ScaleLt(a: real, b: real, c: real)
    requires a < b && c > 0.0
    ensures a * c < b * c
  {
  }

  lemma InvestAmountBounds(asset: int)
    requires asset >= 0
    ensures 0 <= InvestAmount(asset) && 100 * InvestAmount(asset) <= 15 * asset < 100 * (InvestAmount(asset) + 1)
  {
  }

  /** Cost-weighted average of the old and the new lot. */
  function WeightedAverage(oldQty: nat, oldPrice: real, qty: nat, price: real): (avg: real)
    requires oldQty + qty > 0
    ensures avg * (oldQty + qty) as real == oldQty as real * oldPrice + qty as real * price
    ensures (oldPrice <= price ==> oldPrice <= avg <= price) && (price <= oldPrice ==> price <= avg <= oldPrice)
  {
    var total := (oldQty + qty) as real;
    var avg := (oldQty as real * oldPrice + qty as real * price) / total;
    assert avg * total == oldQty as real * oldPrice + qty as real * price;
    AverageBetween(avg, total, oldQty as real, oldPrice, qty as real, price);
    avg
  }

  /** A weighted average with non-negative weights lies between the two prices. */
  lemma AverageBetween(avg: real, total: real, oq: real, op: real, q: real, p: real)
    requires oq >= 0.0 && q >= 0.0 && total == oq + q && total > 0.0
    requires avg * total == oq * op + q * p
    ensures op <= p ==> op <= avg <= p
    ensures p <= op ==> p <= avg <= op
  {
    AverageOffsets(avg, total, oq, op, q, p);
    if op <= p {
      NonnegProduct(q, p - op);
      SignOfFactor(avg - op, total, q * (p - op));
      NonnegProduct(oq, op - p);
      SignOfFactor(avg - p, total, oq * (op - p));
    }
    if p <= op {
      NonnegProduct(q, p - op);
      SignOfFactor(avg - op, total, q * (p - op));
      NonnegProduct(oq, op - p);
      SignOfFactor(avg - p, total, oq * (op - p));
    }
  }

  /** The distance of the average from either price, scaled by the total. */
  lemma AverageOffsets(avg: real, total: real, oq: real, op: real, q: real, p: real)
    requires total == oq + q && avg * total == oq * op + q * p
    ensures (avg - op) * total == q * (p - op)
    ensures (avg - p) * total == oq * (op - p)
  {
    assert (avg - op) * total == avg * total - op * total;
    assert (avg - p) * total == avg * total - p * total;
  }

  lemma NonnegProduct(a: real, b: real)
    requires a >= 0.0
    ensures b >= 0.0 ==> a * b >= 0.0
    ensures b <= 0.0 ==> a * b <= 0.0
  {
  }

  /** Dividing by a positive total keeps the sign. */
  lemma SignOfFactor(d: real, t: real, e: real)
    requires t > 0.0 && d * t == e
    ensures (e >= 0.0 ==> d >= 0.0) && (e <= 0.0 ==> d <= 0.0)
  {
    if e >= 0.0 && d < 0.0 { ScaleLt(d, 0.0, t); }
    if e <= 0.0 && d > 0.0 { ScaleLt(0.0, d, t); }
  }

  // ---------------------------------------------------------------------------
  // execute_buy
  // ---------------------------------------------------------------------------

  /** The leader stock handed to execute_buy. */
  datatype LeaderStock = LeaderStock(code: string, name: string)

  /** One call of execute_buy with the answers of the broker calls it makes. */
  datatype BuyRequest = BuyRequest(
    code: string,               // "" when the stock record has no code
    quote: Option<Quote>,       // the price detail (None when the fetch failed)
    theme: string,
    leader: Option<LeaderStock>,
    leaderQuote: Option<Quote>, // the leader's price detail after a filled order
    strategy: Strategy,
    addOnLevel: Option<int>,
    asset: int,                 // fetch_balance
    filled: bool)               // the buy order was accepted

  /** What execute_buy changes. */
  datatype BuyBook = BuyBook(portfolio: Portfolio, dailyBuyCnt: map<Strategy, int>, boughtThemes: set<string>)

  predicate IsAddOn(portfolio: Portfolio, r: BuyRequest) {
    r.addOnLevel.Some? && r.code in portfolio
  }

  /** The leader is locked at its limit price when the order fills. */
  function LeaderLocked(r: BuyRequest): bool {
    r.leader.Some? && |r.leader.value.code| > 0 && r.leaderQuote.Some?
    && r.leaderQuote.value.price >= r.leaderQuote.value.maxPrice
  }

  /** A fresh position: seeded statistics, the entry flow as flow peak, empty candle memory. */
  function FreshPosition(r: BuyRequest, q: Quote, qty: nat, now: int): (p: Position)
    ensures p.stats == Some(Stats(FlowAmount(q), FlowAmount(q), q.price as real, q.price as real))
    ensures p.candles == EmptyMemory && p.maxPgAmt == FlowAmount(q) && p.qty == qty
    ensures p.buyPrice == p.refPrice == q.price as real && p.maxProfitRate == 0.0 && !p.hasPartialSold
    ensures p.pyramidLevel == r.addOnLevel.GetOr(0) && p.strategy == r.strategy && p.buyTime == now
  {
    Position(q.name, qty, q.price as real, q.price as real,
             if r.leader.Some? && |r.leader.value.code| > 0 then Some(r.leader.value.code) else None,
             if r.leader.Some? then r.leader.value.name else "없음",
             r.strategy, LeaderLocked(r), 0.0, false, now, r.addOnLevel.GetOr(0), FlowAmount(q),
             EmptyMemory, Some(Stats(FlowAmount(q), FlowAmount(q), q.price as real, q.price as real)))
  }

  /**
   * An add-on lot: weighted-average buy price, reference price reset to the
   * new price, high-water mark and partial flag cleared, flow peak restarted.
   */
  function AddOnPosition(p: Position, q: Quote, qty: nat, level: int, now: int): (r: Position)
    requires qty > 0
    ensures r.qty == p.qty + qty && r.buyPrice == WeightedAverage(p.qty, p.buyPrice, qty, q.price as real)
    ensures r.refPrice == q.price as real && r.maxProfitRate == 0.0 && !r.hasPartialSold
    ensures r.maxPgAmt == FlowAmount(q) && r.pyramidLevel == level && r.buyTime == now
    ensures r == p.(qty := r.qty, buyPrice := r.buyPrice, refPrice := r.refPrice, maxProfitRate := 0.0,
                    hasPartialSold := false, maxPgAmt := r.maxPgAmt, pyramidLevel := level, buyTime := now)
  {
    p.(qty := p.qty + qty, buyPrice := WeightedAverage(p.qty, p.buyPrice, qty, q.price as real),
       refPrice := q.price as real, maxProfitRate := 0.0, hasPartialSold := false,
       maxPgAmt := FlowAmount(q), pyramidLevel := level, buyTime := now)
  }

  /** Why execute_buy returns without a change, in the order it checks. */
  predicate BuyRefused(b: BuyBook, active: bool, slotsUsed: int, r: BuyRequest) {
    || !active
    || r.quote.None?
    || |r.code| == 0
    || (!IsAddOn(b.portfolio, r) && slotsUsed >= MaxGlobalSlots)
    || OrderQty(r.asset, r.quote.value.price) <= 0
    || !r.filled
  }

  /** execute_buy's bookkeeping, given the slots in use when it runs. */
  function Buy(b: BuyBook, active: bool, slotsUsed: int, r: BuyRequest, now: int): BuyBook {
    if BuyRefused(b, active, slotsUsed, r) then b
    else
      var q := r.quote.value;
      var qty := OrderQty(r.asset, q.price);
      if IsAddOn(b.portfolio, r) then
        b.(portfolio := b.portfolio[r.code := AddOnPosition(b.portfolio[r.code], q, qty, r.addOnLevel.value, now)])
      else
        BuyBook(b.portfolio[r.code := FreshPosition(r, q, qty, now)],
                if r.strategy in b.dailyBuyCnt then b.dailyBuyCnt[r.strategy := b.dailyBuyCnt[r.strategy] + 1]
                else b.dailyBuyCnt,
                if r.strategy == Theme then b.boughtThemes + {r.theme} else b.boughtThemes)
  }

  /** Buying is inert when paused, when slots are full for a new entry, when the size is 0 or the order fails. */
  lemma BuyRefusals(b: BuyBook, active: bool, slotsUsed: int, r: BuyRequest, now: int)
    ensures !active ==> Buy(b, active, slotsUsed, r, now) == b
    ensures !IsAddOn(b.portfolio, r) && slotsUsed >= 6 ==> Buy(b, active, slotsUsed, r, now) == b
    ensures r.quote.Some? && OrderQty(r.asset, r.quote.value.price) == 0 ==> Buy(b, active, slotsUsed, r, now) == b
    ensures !r.filled ==> Buy(b, active, slotsUsed, r, now) == b
  {
  }

  /** A filled new entry: the code maps to a fresh record, its strategy's count rises, a THEME adds its theme. */
  lemma BuyFresh(b: BuyBook, active: bool, slotsUsed: int, r: BuyRequest, now: int)
    requires !BuyRefused(b, active, slotsUsed, r) && !IsAddOn(b.portfolio, r)
    ensures var n, q := Buy(b, active, slotsUsed, r, now), r.quote.value;
      && n.portfolio == b.portfolio[r.code := FreshPosition(r, q, OrderQty(r.asset, q.price), now)]
      && n.portfolio[r.code].qty > 0 && n.portfolio[r.code].candles == EmptyMemory
      && n.dailyBuyCnt.Keys == b.dailyBuyCnt.Keys
      && (forall s :: s in b.dailyBuyCnt ==>
            n.dailyBuyCnt[s] == b.dailyBuyCnt[s] + (if s == r.strategy then 1 else 0))
      && n.boughtThemes == (if r.strategy == Theme then b.boughtThemes + {r.theme} else b.boughtThemes)
  {
  }

  /**
   * A filled add-on: only that code's record changes; the candle memory and
   * statistics carry over; counters and themes are untouched.
   */
  lemma BuyAddOn(b: BuyBook, active: bool, slotsUsed: int, r: BuyRequest, now: int)
    requires !BuyRefused(b, active, slotsUsed, r) && IsAddOn(b.portfolio, r)
    ensures var n, old_p, q := Buy(b, active, slotsUsed, r, now), b.portfolio[r.code], r.quote.value;
      var qty := OrderQty(r.asset, q.price);
      && n.portfolio.Keys == b.portfolio.Keys
      && (forall c :: c in b.portfolio && c != r.code ==> n.portfolio[c] == b.portfolio[c])
      && n.portfolio[r.code].qty == old_p.qty + qty
      && n.portfolio[r.code].buyPrice * (old_p.qty + qty) as real
           == old_p.qty as real * old_p.buyPrice + qty as real * q.price as real
      && n.portfolio[r.code].refPrice == q.price as real
      && n.portfolio[r.code].maxProfitRate == 0.0 && !n.portfolio[r.code].hasPartialSold
      && n.portfolio[r.code].candles == old_p.candles && n.portfolio[r.code].stats == old_p.stats
      && n.dailyBuyCnt == b.dailyBuyCnt && n.boughtThemes == b.boughtThemes
  {
  }

  // ---------------------------------------------------------------------------
  // The PROGRAM screen's entry gate
  // ---------------------------------------------------------------------------

  /**
   * The checks of the PROGRAM screen between the flow figure and the quote
   * quality filters; Some(level) for a buy. The screen reads the quote
   * twice: `pgFilter` is the flow of the first read, which the time-of-day
   * threshold tests; `pgLevel` is the flow of the second read, taken only
   * for a code not held, None when that read fails, and it alone decides
   * the base level and the milestone index.
   */
  function ProgramEntryLevel(portfolio: Portfolio, bl: Blacklist, code: string, pgFilter: int,
                             pgLevel: Option<int>, hour: Hour, minute: Minute, now: int): Option<int> {
    var filter := PgTimeFilter(hour, minute);
    if filter.None? || pgFilter < filter.value then None
    else if InCooldown(bl, code, now) then None
    else if code in portfolio then None
    else if pgLevel.None? then None
    else if code in bl then None
    else if pgLevel.value >= PgLevel0Amt then Some(MilestoneIndex(pgLevel.value))
    else None
  }

  /**
   * An entry happens exactly for a code neither held nor blacklisted whose
   * first read clears the hour's threshold and whose second read succeeds
   * with at least the base level; its level, 0 to 5, is the second read's
   * milestone. So the cooldown test itself never decides, because any code
   * it could stop is blacklisted anyway.
   */
  lemma ProgramEntryShape(portfolio: Portfolio, bl: Blacklist, code: string, pgFilter: int, pgLevel: Option<int>,
                          hour: Hour, minute: Minute, now: int)
    ensures var r, f := ProgramEntryLevel(portfolio, bl, code, pgFilter, pgLevel, hour, minute, now), PgTimeFilter(hour, minute);
      && (r.Some? <==>
            && f.Some? && pgFilter >= f.value
            && code !in portfolio && code !in bl
            && pgLevel.Some? && pgLevel.value >= PgLevel0Amt)
      && (r.Some? ==> 0 <= r.value <= 5 && r.value == MilestoneIndex(pgLevel.value))
  {
    if pgLevel.Some? {
      MilestoneIndexProperties(pgLevel.value, pgLevel.value);
    }
  }

  /**
   * The two reads can differ: at 10:00 a first read of 21e9 clears the 20e9
   * threshold, and a second read of 19e9 still enters, at level 0 rather than
   * the level 1 the first read would give.
   */
  lemma ProgramEntryLevelFromSecondRead(portfolio: Portfolio, bl: Blacklist, code: string, now: int)
    requires code !in portfolio && code !in bl
    ensures ProgramEntryLevel(portfolio, bl, code, 21_000_000_000, Some(19_000_000_000), 10, 0, now) == Some(0)
    ensures MilestoneIndex(21_000_000_000) == 1
  {
    assert PgMilestones[0] <= 19_000_000_000 < PgMilestones[1];
    assert PgMilestones[1] <= 21_000_000_000 < PgMilestones[2];
  }
}
