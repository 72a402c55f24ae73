/**
 * The cooldown ledger (`TradingBot.blacklist`): entries written when a stock
 * is sold, the running flow minimum tracked for flow exits, the 480-minute
 * re-entry rule, and the time-of-day flow filter of the PROGRAM screen.
 */
module Ledger {
  import opened Options
  import opened TimeKeys
  import opened Positions

  /** The portfolio and the blacklist together: what a sale changes. */
  datatype Book = Book(portfolio: Portfolio, blacklist: Blacklist)

  /** Blacklist reason of a sale: PG_DROP exactly when the sell reason is the flow exit. */
  function CooldownReasonFor(reason: ExitReason): (r: CooldownReason)
    ensures r == PgDrop <==> reason == FlowDrop
    ensures r != ManualSell
  {
    if reason == FlowDrop then PgDrop else Normal
  }

  /** The flow at the time of sale, from the sell-time quote; 0 when both fetches failed. */
  function FlowAtSell(q: Option<Quote>): int {
    if q.Some? then FlowAmount(q.value) else 0
  }

  function SaleEntry(reason: ExitReason, q: Option<Quote>, now: int): CooldownEntry {
    CooldownEntry(CooldownReasonFor(reason), FlowAtSell(q), now)
  }

  function Lookup(quotes: map<string, Quote>, code: string): Option<Quote> {
    if code in quotes then Some(quotes[code]) else None
  }

  /**
   * `sell_stock`: nothing for a code not held; on a filled order, the code
   * leaves the portfolio and gets a fresh blacklist entry; on a rejected
   * order, nothing changes.
   */
  function SellOne(b: Book, code: string, reason: ExitReason, q: Option<Quote>, filled: bool, now: int): (r: Book)
    ensures code !in b.portfolio || !filled ==> r == b
    ensures code in b.portfolio && filled ==>
      && r.portfolio == b.portfolio - {code}
      && r.blacklist.Keys == b.blacklist.Keys + {code}
      && r.blacklist[code].reason == (if reason == FlowDrop then PgDrop else Normal)
      && r.blacklist[code].minPgAmt == FlowAtSell(q)
      && r.blacklist[code].sellTime == now
      && forall c :: c in b.blacklist && c != code ==> r.blacklist[c] == b.blacklist[c]
  {
    if code in b.portfolio && filled then
      Book(b.portfolio - {code}, b.blacklist[code := SaleEntry(reason, q, now)])
    else b
  }

  /** The codes a batch of sell orders actually removes. */
  function Sold(b: Book, orders: map<string, ExitReason>, filled: set<string>): set<string> {
    set c | c in orders && c in b.portfolio && c in filled
  }

  /**
   * A batch of sales with distinct codes, each with its own reason, stated
   * for all codes at once: the order in which they are sent does not matter.
   */
  function SellMany(b: Book, orders: map<string, ExitReason>, quotes: map<string, Quote>, filled: set<string>, now: int): Book {
    var sold := Sold(b, orders, filled);
    Book(map c | c in b.portfolio && c !in sold :: b.portfolio[c],
         map c | c in b.blacklist.Keys + sold ::
           if c in sold then SaleEntry(orders[c], Lookup(quotes, c), now) else b.blacklist[c])
  }

  /** The batch restricted to the codes already sent. */
  function Sent(orders: map<string, ExitReason>, done: set<string>): map<string, ExitReason> {
    map c | c in orders && c in done :: orders[c]
  }

  /** Sending one more order of the batch is one `sell_stock` call. */
  lemma SellManyStep(b: Book, orders: map<string, ExitReason>, quotes: map<string, Quote>, filled: set<string>,
                     now: int, done: set<string>, code: string)
    requires code in orders && code !in done
    ensures SellMany(b, Sent(orders, done + {code}), quotes, filled, now) ==
      SellOne(SellMany(b, Sent(orders, done), quotes, filled, now), code, orders[code],
              Lookup(quotes, code), code in filled, now)
  {
    var s0, s1 := Sold(b, Sent(orders, done), filled), Sold(b, Sent(orders, done + {code}), filled);
    var hit := code in b.portfolio && code in filled;
    assert s1 == if hit then s0 + {code} else s0 by {
      forall c ensures c in s1 <==> c in s0 || (hit && c == code) { }
    }
    var before := SellMany(b, Sent(orders, done), quotes, filled, now);
    var after := SellMany(b, Sent(orders, done + {code}), quotes, filled, now);
    if hit {
      assert code in before.portfolio;
      var stepped := Book(before.portfolio - {code}, before.blacklist[code := SaleEntry(orders[code], Lookup(quotes, code), now)]);
      assert after.portfolio == stepped.portfolio;
      assert after.blacklist == stepped.blacklist by {
        forall c | c in after.blacklist ensures c in stepped.blacklist && after.blacklist[c] == stepped.blacklist[c] {
          if c != code && c in s0 { assert Sent(orders, done + {code})[c] == Sent(orders, done)[c]; }
        }
      }
    } else {
      assert after.portfolio == before.portfolio;
      assert after.blacklist == before.blacklist by {
        forall c | c in after.blacklist ensures after.blacklist[c] == before.blacklist[c] {
          if c in s0 { assert Sent(orders, done + {code})[c] == Sent(orders, done)[c]; }
        }
      }
    }
  }

  /** Every filled order removes its code and blacklists it; nothing else moves. */
  lemma SellManyEffect(b: Book, orders: map<string, ExitReason>, quotes: map<string, Quote>, filled: set<string>, now: int)
    ensures var r := SellMany(b, orders, quotes, filled, now);
      && (forall c :: c in r.portfolio <==> c in b.portfolio && !(c in orders && c in filled))
      && (forall c :: c in r.portfolio ==> r.portfolio[c] == b.portfolio[c])
      && (forall c :: c in b.portfolio && c in orders && c in filled ==>
            c in r.blacklist && r.blacklist[c] == SaleEntry(orders[c], Lookup(quotes, c), now))
      && (forall c :: c in r.blacklist && !(c in b.portfolio && c in orders && c in filled) ==>
            c in b.blacklist && r.blacklist[c] == b.blacklist[c])
  {
  }

  /** Before the first order nothing is sold; after the last the whole batch is. */
  lemma SentBounds(b: Book, orders: map<string, ExitReason>, quotes: map<string, Quote>, filled: set<string>, now: int)
    ensures SellMany(b, Sent(orders, {}), quotes, filled, now) == b
    ensures Sent(orders, orders.Keys) == orders
  {
    var r := SellMany(b, Sent(orders, {}), quotes, filled, now);
    assert r.portfolio == b.portfolio;
    assert r.blacklist == b.blacklist;
  }

  /** `liquidate_all_positions`: one order per held code, all with the same reason. */
  function AllFor(portfolio: Portfolio, reason: ExitReason): (o: map<string, ExitReason>)
    ensures o.Keys == portfolio.Keys
  {
    map c | c in portfolio :: reason
  }

  /**
   * Liquidation keeps exactly the codes whose order did not fill; every sold
   * code is blacklisted as NORMAL at `now` unless the reason is the flow
   * exit; when every order fills the portfolio is empty.
   */
  lemma LiquidationEffect(b: Book, reason: ExitReason, quotes: map<string, Quote>, filled: set<string>, now: int)
    ensures var r := SellMany(b, AllFor(b.portfolio, reason), quotes, filled, now);
      && r.portfolio.Keys == b.portfolio.Keys - filled
      && (forall c :: c in r.portfolio ==> r.portfolio[c] == b.portfolio[c])
      && (forall c :: c in b.portfolio && c in filled ==>
            c in r.blacklist && r.blacklist[c] == CooldownEntry(CooldownReasonFor(reason), FlowAtSell(Lookup(quotes, c)), now))
      && (b.portfolio.Keys <= filled ==> r.portfolio == map[])
  {
    SellManyEffect(b, AllFor(b.portfolio, reason), quotes, filled, now);
    var r := SellMany(b, AllFor(b.portfolio, reason), quotes, filled, now);
    if b.portfolio.Keys <= filled {
      assert r.portfolio.Keys == {};
    }
  }

  // ---------------------------------------------------------------------------
  // Flow troughs of stocks that left on the flow rule
  // ---------------------------------------------------------------------------

  /** One blacklist entry after one quote: only PG_DROP entries track a lower flow. */
  function Trough(e: CooldownEntry, q: Option<Quote>): (r: CooldownEntry)
    ensures r.reason == e.reason && r.sellTime == e.sellTime
    ensures r.minPgAmt <= e.minPgAmt
    ensures e.reason == PgDrop && q.Some? ==>
      r.minPgAmt <= FlowAmount(q.value) && (r.minPgAmt == e.minPgAmt || r.minPgAmt == FlowAmount(q.value))
    ensures e.reason != PgDrop || q.None? ==> r == e
  {
    if e.reason == PgDrop && q.Some? && FlowAmount(q.value) < e.minPgAmt then e.(minPgAmt := FlowAmount(q.value))
    else e
  }

  /** The trough-tracking loop over the whole blacklist. */
  function TrackTroughs(bl: Blacklist, quotes: map<string, Quote>): (r: Blacklist)
    ensures r.Keys == bl.Keys
  {
    map c | c in bl :: Trough(bl[c], Lookup(quotes, c))
  }

  /** The blacklist with the entries in `done` already updated. */
  function TrackedSoFar(bl: Blacklist, quotes: map<string, Quote>, done: set<string>): Blacklist {
    map c | c in bl :: if c in done then Trough(bl[c], Lookup(quotes, c)) else bl[c]
  }

  lemma TrackedSoFarBounds(bl: Blacklist, quotes: map<string, Quote>)
    ensures TrackedSoFar(bl, quotes, {}) == bl
    ensures TrackedSoFar(bl, quotes, bl.Keys) == TrackTroughs(bl, quotes)
  {
  }

  /** Tracking one more entry is one run of the loop body. */
  lemma TrackedSoFarStep(bl: Blacklist, quotes: map<string, Quote>, done: set<string>, code: string)
    requires code in bl && code !in done
    ensures TrackedSoFar(bl, quotes, done + {code})
         == TrackedSoFar(bl, quotes, done)[code := Trough(bl[code], Lookup(quotes, code))]
  {
  }

  /** Tracking the same quotes twice changes nothing more: the minimum is already taken. */
  lemma TrackTroughsIdempotent(bl: Blacklist, quotes: map<string, Quote>)
    ensures TrackTroughs(TrackTroughs(bl, quotes), quotes) == TrackTroughs(bl, quotes)
  {
    var once := TrackTroughs(bl, quotes);
    forall c | c in bl
      ensures Trough(once[c], Lookup(quotes, c)) == once[c]
    {
    }
  }

  // ---------------------------------------------------------------------------
  // Re-entry rules
  // ---------------------------------------------------------------------------

  /** Sold less than 480 minutes ago. */
  predicate InCooldown(bl: Blacklist, code: string, now: int) {
    code in bl && (now - bl[code].sellTime) as real / 60.0 < RebuyCooltimeMinutes as real
  }

  lemma InCooldownInSeconds(bl: Blacklist, code: string, now: int)
    ensures InCooldown(bl, code, now) <==> code in bl && now - bl[code].sellTime < 28800
  {
  }

  /**
   * The PROGRAM screen's flow threshold for the time of day; None where the
   * screen buys nothing (11:00 to 12:59 and from 15:00).
   */
  function PgTimeFilter(hour: Hour, minute: Minute): Option<int> {
    if hour == 9 && minute < 30 then Some(PgTimeFilter0)
    else if (hour == 9 && minute >= 30) || hour < 11 then Some(PgTimeFilter1)
    else if 11 <= hour < 13 then None
    else if 13 <= hour < 15 then Some(PgTimeFilter1)
    else None
  }

  /** By minute of the day: 5e9 from 09:00 to 09:29, 2e10 before 09:00 and from 09:30 to 10:59 and 13:00 to 14:59. */
  lemma PgTimeFilterByMinuteOfDay(hour: Hour, minute: Minute)
    ensures var t, f := hour * 60 + minute, PgTimeFilter(hour, minute);
      && (540 <= t < 570 <==> f == Some(5_000_000_000))
      && ((t < 540 || 570 <= t < 660 || 780 <= t < 900) <==> f == Some(20_000_000_000))
      && ((660 <= t < 780 || t >= 900) <==> f.None?)
  {
  }
}
