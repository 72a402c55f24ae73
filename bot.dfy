/**
 * The state of `TradingBot` (trading_bot.py:588-609) and the methods that
 * change it in place. Every broker answer a method needs (quotes, holdings,
 * whether an order filled) is a parameter, and so is the time.
 */
module Bot {
  import opened Options
  import opened TimeKeys
  import opened Candles
  import opened Positions
  import opened ExitRules
  import opened Ledger
  import opened Reconciliation
  import opened Lifecycle
  import opened Monitor
  import opened Commands

  /** `daily_buy_cnt` at start-up and after the daily reset. */
  const FreshBuyCounts: map<Strategy, int> := map[Morning := 0, Theme := 0, Program := 0]

  class TradingBot {
    var portfolio: Portfolio
    var blacklist: Blacklist
    var missingCounts: map<string, nat>
    var isBuyActive: bool
    var dailyBuyCnt: map<Strategy, int>
    var boughtThemes: set<string>
    var lockedLeaders: map<string, int>
    var marketOpenTime: Option<int>
    /** The cycle counter of `monitor_portfolio`, restarted each time the monitor starts. */
    var syncCounter: nat

    constructor()
      ensures portfolio == map[] && blacklist == map[] && missingCounts == map[]
      ensures isBuyActive && dailyBuyCnt == FreshBuyCounts && boughtThemes == {}
      ensures lockedLeaders == map[] && marketOpenTime.None? && syncCounter == 0
    {
      portfolio := map[];
      blacklist := map[];
      missingCounts := map[];
      isBuyActive := true;
      dailyBuyCnt := FreshBuyCounts;
      boughtThemes := {};
      lockedLeaders := map[];
      marketOpenTime := None;
      syncCounter := 0;
    }

    // -------------------------------------------------------------------------
    // Slots and candles
    // -------------------------------------------------------------------------

    /** `get_current_slots_used`. */
    method CurrentSlotsUsed() returns (total: int)
      ensures total == TotalSlots(portfolio)
    {
      total := 0;
      var rest := portfolio.Keys;
      while rest != {}
        invariant rest <= portfolio.Keys
        invariant total + SlotsOver(portfolio, rest) == TotalSlots(portfolio)
        decreases rest
      {
        var code :| code in rest;
        SlotsOverRemove(portfolio, rest, code);
        total := total + (portfolio[code].pyramidLevel + 1);
        rest := rest - {code};
      }
    }

    /** `update_candle_memory` for a held code, with the bucket of the current time. */
    method UpdateCandleMemory(code: string, price: int, hour: Hour, minute: Minute)
      modifies this`portfolio
      ensures code !in old(portfolio) ==> portfolio == old(portfolio)
      ensures code in old(portfolio) ==>
        portfolio == old(portfolio)[code := old(portfolio)[code].(
          candles := Advance(old(portfolio)[code].candles, BucketKey(hour, minute), price))]
    {
      if code !in portfolio {
        return;
      }
      var p := portfolio[code];
      var mem := p.candles;
      var key := BucketKey(hour, minute);
      if !(mem.current.Some? && mem.current.value.tag == key) {
        var history := mem.history;
        if mem.current.Some? {
          history := history + [mem.current.value];
          if |history| > HistoryCap {
            history := history[1..];
          }
        }
        mem := CandleMemory(history, Some(Bar(price, price, price, price, key)));
      } else {
        var c := mem.current.value;
        if price > c.high {
          c := c.(high := price);
        }
        if price < c.low {
          c := c.(low := price);
        }
        c := c.(close := price);
        mem := mem.(current := Some(c));
      }
      portfolio := portfolio[code := p.(candles := mem)];
    }

    // -------------------------------------------------------------------------
    // Buying and selling
    // -------------------------------------------------------------------------

    /** The bookkeeping of `execute_buy`, in the order the source checks. */
    method ExecuteBuy(r: BuyRequest, now: int)
      modifies this`portfolio, this`dailyBuyCnt, this`boughtThemes
      ensures BuyBook(portfolio, dailyBuyCnt, boughtThemes)
           == Buy(BuyBook(old(portfolio), old(dailyBuyCnt), old(boughtThemes)), isBuyActive, TotalSlots(old(portfolio)), r, now)
    {
      if !isBuyActive || r.quote.None? || |r.code| == 0 {
        return;
      }
      var info := r.quote.value;
      var isAddOn := r.addOnLevel.Some? && r.code in portfolio;
      if !isAddOn {
        var used := CurrentSlotsUsed();
        if used >= MaxGlobalSlots {
          return;
        }
      }
      var investAmount := Trunc(r.asset as real * InvestRatio);
      var qty := 0;
      if info.price > 0 {
        qty := Trunc(investAmount as real / info.price as real);
      }
      if qty <= 0 || !r.filled {
        return;
      }
      if !isAddOn && r.strategy in dailyBuyCnt {
        dailyBuyCnt := dailyBuyCnt[r.strategy := dailyBuyCnt[r.strategy] + 1];
      }
      if isAddOn {
        portfolio := portfolio[r.code := AddOnPosition(portfolio[r.code], info, qty, r.addOnLevel.value, now)];
      } else {
        portfolio := portfolio[r.code := FreshPosition(r, info, qty, now)];
        if r.strategy == Theme {
          boughtThemes := boughtThemes + {r.theme};
        }
      }
    }

    /** `sell_stock`, given the sell-time quote and whether the order filled. */
    method SellStock(code: string, reason: ExitReason, q: Option<Quote>, filled: bool, now: int)
      modifies this`portfolio, this`blacklist
      ensures Book(portfolio, blacklist) == SellOne(Book(old(portfolio), old(blacklist)), code, reason, q, filled, now)
    {
      if code in portfolio && filled {
        blacklist := blacklist[code := CooldownEntry(if reason == FlowDrop then PgDrop else Normal, FlowAtSell(q), now)];
        portfolio := portfolio - {code};
      }
    }

    /** Send a batch of sell orders, one `sell_stock` per code, in any order. */
    method SellOrders(orders: map<string, ExitReason>, quotes: map<string, Quote>, filled: set<string>, now: int)
      modifies this`portfolio, this`blacklist
      ensures Book(portfolio, blacklist) == SellMany(Book(old(portfolio), old(blacklist)), orders, quotes, filled, now)
    {
      ghost var b0 := Book(portfolio, blacklist);
      ghost var done: set<string> := {};
      SentBounds(b0, orders, quotes, filled, now);
      var rest := orders.Keys;
      while rest != {}
        invariant done <= orders.Keys && rest == orders.Keys - done
        invariant Book(portfolio, blacklist) == SellMany(b0, Sent(orders, done), quotes, filled, now)
        decreases rest
      {
        var code :| code in rest;
        SellManyStep(b0, orders, quotes, filled, now, done, code);
        SellStock(code, orders[code], Lookup(quotes, code), code in filled, now);
        done := done + {code};
        rest := rest - {code};
      }
      assert done == orders.Keys;
    }

    /** `liquidate_all_positions`: every held code is sold for the same reason. */
    method LiquidateAll(reason: ExitReason, quotes: map<string, Quote>, filled: set<string>, now: int)
      modifies this`portfolio, this`blacklist
      ensures Book(portfolio, blacklist)
           == SellMany(Book(old(portfolio), old(blacklist)), AllFor(old(portfolio), reason), quotes, filled, now)
    {
      if portfolio == map[] {
        SentBounds(Book(portfolio, blacklist), AllFor(portfolio, reason), quotes, filled, now);
        assert AllFor(portfolio, reason) == Sent(AllFor(portfolio, reason), {});
        return;
      }
      SellOrders(AllFor(portfolio, reason), quotes, filled, now);
    }

    // -------------------------------------------------------------------------
    // The cooldown ledger
    // -------------------------------------------------------------------------

    /** The trough tracking after each scan, with this cycle's quotes of the blacklisted codes. */
    method TrackFlowTroughs(quotes: map<string, Quote>)
      modifies this`blacklist
      ensures blacklist == TrackTroughs(old(blacklist), quotes)
    {
      ghost var bl0 := blacklist;
      ghost var done: set<string> := {};
      TrackedSoFarBounds(bl0, quotes);
      var rest := blacklist.Keys;
      while rest != {}
        invariant done <= bl0.Keys && rest == bl0.Keys - done
        invariant blacklist == TrackedSoFar(bl0, quotes, done)
        decreases rest
      {
        var code :| code in rest;
        TrackedSoFarStep(bl0, quotes, done, code);
        var e := blacklist[code];
        if e.reason == PgDrop && code in quotes {
          var pg := FlowAmount(quotes[code]);
          if pg < e.minPgAmt {
            blacklist := blacklist[code := e.(minPgAmt := pg)];
          }
        }
        done := done + {code};
        rest := rest - {code};
      }
    }

    /** `wait_until_next_morning`: the day's state is cleared; the buy switch is kept. */
    method ResetForNewDay()
      modifies this`portfolio, this`blacklist, this`dailyBuyCnt, this`boughtThemes, this`lockedLeaders,
               this`missingCounts, this`marketOpenTime
      ensures portfolio == map[] && blacklist == map[] && dailyBuyCnt == FreshBuyCounts && boughtThemes == {}
      ensures lockedLeaders == map[] && missingCounts == map[] && marketOpenTime.None?
    {
      portfolio := map[];
      blacklist := map[];
      dailyBuyCnt := FreshBuyCounts;
      boughtThemes := {};
      lockedLeaders := map[];
      missingCounts := map[];
      marketOpenTime := None;
    }

    // -------------------------------------------------------------------------
    // Reconciliation with the broker
    // -------------------------------------------------------------------------

    /** The portfolio pass of the periodic block, over the held codes in any order. */
    method ReconcileHoldings(holdings: Holdings, now: int)
      modifies this`portfolio, this`blacklist, this`missingCounts
      ensures Books(portfolio, blacklist, missingCounts)
           == Reconcile(Books(old(portfolio), old(blacklist), old(missingCounts)), holdings, now)
    {
      ghost var st0 := Books(portfolio, blacklist, missingCounts);
      ghost var visited: seq<string> := [];
      var rest := portfolio.Keys;
      while rest != {}
        invariant rest <= st0.portfolio.Keys && rest <= portfolio.Keys
        invariant forall c :: c in visited <==> c in st0.portfolio && c !in rest
        invariant forall i, j :: 0 <= i < j < |visited| ==> visited[i] != visited[j]
        invariant Books(portfolio, blacklist, missingCounts) == CheckedInOrder(st0, holdings, now, visited)
        decreases rest
      {
        var code :| code in rest;
        CheckedInOrderStep(st0, holdings, now, visited, code);
        ReconcileOne(code, holdings, now);
        visited := visited + [code];
        rest := rest - {code};
      }
      CheckedInOrderAnyOrder(st0, holdings, now, visited);
      assert (set c | c in visited) == st0.portfolio.Keys;
    }

    /** One run of the portfolio pass's body for a held code. */
    method ReconcileOne(code: string, holdings: Holdings, now: int)
      requires code in portfolio
      modifies this`portfolio, this`blacklist, this`missingCounts
      ensures Books(portfolio, blacklist, missingCounts)
           == ReconcileCode(Books(old(portfolio), old(blacklist), old(missingCounts)), code, holdings, now)
      ensures old(portfolio).Keys - {code} <= portfolio.Keys
    {
      var p := portfolio[code];
      if now - p.buyTime < GraceSeconds {
        return;
      }
      if code !in holdings {
        var n := MissingCount(missingCounts, code) + 1;
        missingCounts := missingCounts[code := n];
        if n >= MissingLimit {
          blacklist := blacklist[code := ManualSellEntry(now)];
          portfolio := portfolio - {code};
          missingCounts := missingCounts - {code};
          assert missingCounts == old(missingCounts) - {code};
        }
        return;
      }
      if code in missingCounts {
        missingCounts := missingCounts - {code};
      }
      assert missingCounts == old(missingCounts) - {code};
      var realQty := holdings[code].qty;
      if realQty < p.qty {
        portfolio := portfolio[code := p.(qty := realQty)];
      }
    }

    /** The recovery pass of the periodic block. */
    method RecoverHoldings(holdings: Holdings, now: int)
      modifies this`portfolio
      ensures portfolio == Recover(old(portfolio), blacklist, holdings, now)
    {
      ghost var p0 := portfolio;
      ghost var done: set<string> := {};
      RecoveredSoFarNone(p0, blacklist, holdings, now);
      var rest := holdings.Keys;
      while rest != {}
        invariant done <= holdings.Keys && rest == holdings.Keys - done
        invariant portfolio == RecoveredSoFar(p0, blacklist, holdings, now, done)
        decreases rest
      {
        var code :| code in rest;
        RecoveredSoFarStep(p0, blacklist, holdings, now, done, code);
        if code !in portfolio && code !in blacklist {
          portfolio := portfolio[code := RecoveredPosition(holdings[code], now)];
        }
        done := done + {code};
        rest := rest - {code};
      }
    }

    /** The periodic block at the top of every monitor cycle; `holdings` is None when the read failed. */
    method SyncTick(holdings: Option<Holdings>, now: int)
      modifies this`portfolio, this`blacklist, this`missingCounts, this`syncCounter
      ensures syncCounter == if SyncDue(old(syncCounter)) then 0 else old(syncCounter) + 1
      ensures Books(portfolio, blacklist, missingCounts)
           == Synced(Books(old(portfolio), old(blacklist), old(missingCounts)), SyncDue(old(syncCounter)), holdings, now)
    {
      syncCounter := syncCounter + 1;
      if syncCounter >= SyncEvery {
        if holdings.Some? {
          ReconcileHoldings(holdings.value, now);
          RecoverHoldings(holdings.value, now);
        }
        syncCounter := 0;
      }
    }

    /**
     * The start-up sync at the top of `monitor_portfolio`, with the deletion
     * of unreported codes skipped when the holdings read failed; the cycle
     * counter starts at 0.
     */
    method BeginMonitoring(holdings: Option<Holdings>, now: int)
      modifies this`portfolio, this`syncCounter
      ensures portfolio == StartupSync(old(portfolio), holdings, now) && syncCounter == 0
    {
      if holdings.Some? {
        RestoreReported(holdings.value, now);
        PruneUnreported(holdings.value);
        StartupSyncLoops(old(portfolio), holdings.value, now);
      }
      syncCounter := 0;
    }

    /** The start-up sync's first loop: reported codes the bot does not know are restored. */
    method RestoreReported(reported: Holdings, now: int)
      modifies this`portfolio
      ensures portfolio == RestoredSoFar(old(portfolio), reported, now, reported.Keys)
    {
      ghost var p0 := portfolio;
      ghost var done: set<string> := {};
      var rest := reported.Keys;
      while rest != {}
        invariant done <= reported.Keys && rest == reported.Keys - done
        invariant portfolio == RestoredSoFar(p0, reported, now, done)
        decreases rest
      {
        var code :| code in rest;
        RestoredSoFarStep(p0, reported, now, done, code);
        if code !in portfolio {
          portfolio := portfolio[code := RestoredPosition(reported[code], now)];
        }
        done := done + {code};
        rest := rest - {code};
      }
    }

    /** The start-up sync's second loop: held codes the read did not report are deleted. */
    method PruneUnreported(reported: Holdings)
      modifies this`portfolio
      ensures portfolio == PrunedSoFar(old(portfolio), reported, old(portfolio).Keys)
    {
      ghost var p1 := portfolio;
      ghost var done: set<string> := {};
      var rest := portfolio.Keys;
      while rest != {}
        invariant done <= p1.Keys && rest == p1.Keys - done
        invariant portfolio == PrunedSoFar(p1, reported, done)
        decreases rest
      {
        var code :| code in rest;
        PrunedSoFarStep(p1, reported, done, code);
        if code !in reported {
          portfolio := portfolio - {code};
        }
        done := done + {code};
        rest := rest - {code};
      }
    }

    // -------------------------------------------------------------------------
    // The monitor cycle
    // -------------------------------------------------------------------------

    /**
     * The scan over the held positions, in an order the model leaves open.
     * It stops at the first fault (a zero reference price); the records of
     * the codes it has visited have had their turn, the others are as before.
     */
    method ScanPositions(quotes: map<string, Quote>, partialFilled: set<string>, clock: Clock)
      returns (orders: map<string, ExitReason>, crashed: bool, ghost visited: set<string>)
      modifies this`portfolio
      ensures visited <= old(portfolio).Keys
      ensures portfolio == Scanned(old(portfolio), quotes, partialFilled, clock, visited)
      ensures orders == Orders(old(portfolio), quotes, clock, visited)
      ensures crashed <==> exists c :: c in old(portfolio) && Faults(old(portfolio), c, quotes, clock)
      ensures !crashed ==> visited == old(portfolio).Keys
    {
      ghost var p0 := portfolio;
      orders, crashed, visited := map[], false, {};
      ScannedNone(p0, quotes, partialFilled, clock);
      var rest := portfolio.Keys;
      while rest != {}
        invariant visited <= p0.Keys && rest == p0.Keys - visited
        invariant portfolio == Scanned(p0, quotes, partialFilled, clock, visited)
        invariant orders == Orders(p0, quotes, clock, visited)
        invariant forall c :: c in visited ==> !Faults(p0, c, quotes, clock)
        decreases rest
      {
        var code :| code in rest;
        ScannedStep(p0, quotes, partialFilled, clock, visited, code);
        var p := portfolio[code];
        var v := Evaluate(p, LeaderQuote(p, quotes), Lookup(quotes, code), clock);
        visited := visited + {code};
        rest := rest - {code};
        match v.action {
          case Fault =>
            portfolio := portfolio[code := v.pos];
            crashed := true;
            return;
          case Sell(reason) =>
            portfolio := portfolio[code := v.pos];
            orders := orders[code := reason];
          case PartialSell(n) =>
            portfolio := portfolio[code := Settle(v, code in partialFilled)];
          case Hold =>
            portfolio := portfolio[code := v.pos];
        }
      }
    }

    /**
     * One pass of the `monitor_portfolio` loop: the periodic block; nothing
     * more with an empty portfolio; else the scan and, unless it crashed, the
     * collected sales and the trough tracking.
     */
    method MonitorCycle(holdings: Option<Holdings>, quotes: map<string, Quote>, partialFilled: set<string>,
                        sellQuotes: map<string, Quote>, sellFilled: set<string>, troughQuotes: map<string, Quote>,
                        clock: Clock)
      returns (crashed: bool)
      modifies this`portfolio, this`blacklist, this`missingCounts, this`syncCounter
      ensures syncCounter == if SyncDue(old(syncCounter)) then 0 else old(syncCounter) + 1
      ensures var st := Synced(Books(old(portfolio), old(blacklist), old(missingCounts)), SyncDue(old(syncCounter)), holdings, clock.now);
        && missingCounts == st.missing
        && (crashed <==> exists c :: c in st.portfolio && Faults(st.portfolio, c, quotes, clock))
        && (st.portfolio == map[] ==> portfolio == st.portfolio && blacklist == st.blacklist)
        && (crashed ==> portfolio.Keys == st.portfolio.Keys && blacklist == st.blacklist)
        && (!crashed && st.portfolio != map[] ==>
              var b := SellMany(Book(Scanned(st.portfolio, quotes, partialFilled, clock, st.portfolio.Keys), st.blacklist),
                                Orders(st.portfolio, quotes, clock, st.portfolio.Keys), sellQuotes, sellFilled, clock.now);
              portfolio == b.portfolio && blacklist == TrackTroughs(b.blacklist, troughQuotes))
    {
      SyncTick(holdings, clock.now);
      ghost var st := Books(portfolio, blacklist, missingCounts);
      crashed := false;
      if portfolio != map[] {
        var orders, c, visited := ScanPositions(quotes, partialFilled, clock);
        ScannedKeys(st.portfolio, quotes, partialFilled, clock, visited);
        crashed := c;
        if !c {
          SellOrders(orders, sellQuotes, sellFilled, clock.now);
          TrackFlowTroughs(troughQuotes);
        }
      }
    }

    // -------------------------------------------------------------------------
    // Remote control
    // -------------------------------------------------------------------------

    /**
     * One chat update: `stop` and `start` switch buying off and on, `sell`
     * liquidates everything for the remote-sell reason, `info` and anything
     * else change nothing.
     */
    method HandleCommand(text: Option<string>, chatId: string, ownChat: string,
                         quotes: map<string, Quote>, filled: set<string>, now: int)
      returns (cmd: Command)
      modifies this`isBuyActive, this`portfolio, this`blacklist
      ensures cmd == Receive(text, chatId, ownChat)
      ensures isBuyActive == (if cmd == Stop then false else if cmd == Start then true else old(isBuyActive))
      ensures cmd == SellAll ==>
        Book(portfolio, blacklist)
          == SellMany(Book(old(portfolio), old(blacklist)), AllFor(old(portfolio), RemoteSell), quotes, filled, now)
      ensures cmd != SellAll ==> portfolio == old(portfolio) && blacklist == old(blacklist)
    {
      cmd := Receive(text, chatId, ownChat);
      Apply(cmd, quotes, filled, now);
    }

    /** The effect of one recognised command. */
    method Apply(cmd: Command, quotes: map<string, Quote>, filled: set<string>, now: int)
      modifies this`isBuyActive, this`portfolio, this`blacklist
      ensures isBuyActive == (if cmd == Stop then false else if cmd == Start then true else old(isBuyActive))
      ensures cmd == SellAll ==>
        Book(portfolio, blacklist)
          == SellMany(Book(old(portfolio), old(blacklist)), AllFor(old(portfolio), RemoteSell), quotes, filled, now)
      ensures cmd != SellAll ==> portfolio == old(portfolio) && blacklist == old(blacklist)
    {
      match cmd {
        case Info =>
        case Stop => isBuyActive := false;
        case Start => isBuyActive := true;
        case SellAll => LiquidateAll(RemoteSell, quotes, filled, now);
        case Ignored =>
      }
    }
  }
}
