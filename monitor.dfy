/**
 * One scan of `monitor_portfolio` over the held positions
 * (trading_bot.py:766-994): each position takes its turn with the quotes of
 * this cycle, partial sales are sent on the spot, full sales are only
 * collected, and a zero reference price aborts the scan before any
 * collected sale is sent.
 */
module Monitor {
  import opened Options
  import opened TimeKeys
  import opened Positions
  import opened ExitRules
  import opened Ledger

  /** The leader quote the THEME rule reads; a position without a leader code gets none. */
  function LeaderQuote(p: Position, quotes: map<string, Quote>): Option<Quote> {
    if p.leader.Some? then Lookup(quotes, p.leader.value) else None
  }

  /** The verdict on one held code with this cycle's quotes. */
  function Turn(p: Position, code: string, quotes: map<string, Quote>, clock: Clock): Verdict {
    Evaluate(p, LeaderQuote(p, quotes), Lookup(quotes, code), clock)
  }

  /**
   * The record once its turn is over: the rule updates, and a partial sale
   * settled when its order fills. Full sales leave the quantity alone.
   */
  function AfterTurn(p: Position, code: string, quotes: map<string, Quote>, partialFilled: set<string>, clock: Clock): (r: Position)
    ensures var v := Turn(p, code, quotes, clock);
      && (v.action.PartialSell? && code in partialFilled ==>
            r.qty == p.qty - p.qty / 2 && r.hasPartialSold && r == v.pos.(qty := r.qty, hasPartialSold := true))
      && (!(v.action.PartialSell? && code in partialFilled) ==> r == v.pos && r.qty == p.qty)
  {
    Settle(Turn(p, code, quotes, clock), code in partialFilled)
  }

  predicate Faults(portfolio: Portfolio, code: string, quotes: map<string, Quote>, clock: Clock)
    requires code in portfolio
  {
    Turn(portfolio[code], code, quotes, clock).action == Fault
  }

  /** The portfolio once the codes in `done` have had their turn. */
  function Scanned(portfolio: Portfolio, quotes: map<string, Quote>, partialFilled: set<string>, clock: Clock,
                   done: set<string>): Portfolio {
    map c | c in portfolio :: if c in done then AfterTurn(portfolio[c], c, quotes, partialFilled, clock) else portfolio[c]
  }

  /** The sales collected from the codes in `done`, one reason per code. */
  function Orders(portfolio: Portfolio, quotes: map<string, Quote>, clock: Clock, done: set<string>): map<string, ExitReason> {
    map c | c in portfolio && c in done && Turn(portfolio[c], c, quotes, clock).action.Sell? ::
      Turn(portfolio[c], c, quotes, clock).action.reason
  }

  /** A partial scan keeps every code. */
  lemma ScannedKeys(portfolio: Portfolio, quotes: map<string, Quote>, partialFilled: set<string>, clock: Clock,
                    done: set<string>)
    ensures Scanned(portfolio, quotes, partialFilled, clock, done).Keys == portfolio.Keys
  {
  }

  lemma ScannedNone(portfolio: Portfolio, quotes: map<string, Quote>, partialFilled: set<string>, clock: Clock)
    ensures Scanned(portfolio, quotes, partialFilled, clock, {}) == portfolio
    ensures Orders(portfolio, quotes, clock, {}) == map[]
  {
  }

  /**
   * One more turn is one run of the loop body: it reads the code's record as
   * it was before the scan, because earlier turns touch only their own code.
   */
  lemma ScannedStep(portfolio: Portfolio, quotes: map<string, Quote>, partialFilled: set<string>, clock: Clock,
                    done: set<string>, code: string)
    requires code in portfolio && code !in done
    ensures var cur, v := Scanned(portfolio, quotes, partialFilled, clock, done), Turn(portfolio[code], code, quotes, clock);
      && code in cur && cur[code] == portfolio[code]
      && Scanned(portfolio, quotes, partialFilled, clock, done + {code})
           == cur[code := AfterTurn(portfolio[code], code, quotes, partialFilled, clock)]
      && Orders(portfolio, quotes, clock, done + {code})
           == if v.action.Sell? then Orders(portfolio, quotes, clock, done)[code := v.action.reason]
              else Orders(portfolio, quotes, clock, done)
  {
    ScannedOneMore(portfolio, quotes, partialFilled, clock, done, code);
    OrdersOneMore(portfolio, quotes, clock, done, code);
  }

  lemma ScannedOneMore(portfolio: Portfolio, quotes: map<string, Quote>, partialFilled: set<string>, clock: Clock,
                       done: set<string>, code: string)
    requires code in portfolio && code !in done
    ensures var cur := Scanned(portfolio, quotes, partialFilled, clock, done);
      && code in cur && cur[code] == portfolio[code]
      && Scanned(portfolio, quotes, partialFilled, clock, done + {code})
           == cur[code := AfterTurn(portfolio[code], code, quotes, partialFilled, clock)]
  {
  }

  lemma OrdersOneMore(portfolio: Portfolio, quotes: map<string, Quote>, clock: Clock, done: set<string>, code: string)
    requires code in portfolio && code !in done
    ensures var v := Turn(portfolio[code], code, quotes, clock);
      Orders(portfolio, quotes, clock, done + {code})
        == if v.action.Sell? then Orders(portfolio, quotes, clock, done)[code := v.action.reason]
           else Orders(portfolio, quotes, clock, done)
  {
    var v := Turn(portfolio[code], code, quotes, clock);
    var o0, o1 := Orders(portfolio, quotes, clock, done), Orders(portfolio, quotes, clock, done + {code});
    if v.action.Sell? {
      assert o1 == o0[code := v.action.reason];
    } else {
      assert o1 == o0;
    }
  }

  /**
   * A complete scan keeps every code; no record gains shares; only a filled
   * partial sale takes shares, exactly half rounded down, and sets the
   * partial flag; collected sales leave their records' quantity unchanged.
   */
  lemma ScanComplete(portfolio: Portfolio, quotes: map<string, Quote>, partialFilled: set<string>, clock: Clock)
    ensures var r, o := Scanned(portfolio, quotes, partialFilled, clock, portfolio.Keys), Orders(portfolio, quotes, clock, portfolio.Keys);
      && r.Keys == portfolio.Keys
      && o.Keys <= portfolio.Keys
      && (forall c :: c in portfolio ==> r[c].qty <= portfolio[c].qty)
      && (forall c :: c in portfolio && r[c].qty != portfolio[c].qty ==>
            c in partialFilled && c !in o && r[c].hasPartialSold
            && r[c].qty == portfolio[c].qty - portfolio[c].qty / 2)
      && (forall c :: c in o ==>
            r[c].qty == portfolio[c].qty && Turn(portfolio[c], c, quotes, clock).action == Sell(o[c]))
  {
  }

  /** A code the scan asks to sell because of its leader is sold on the leader's quote alone. */
  lemma LeaderExitOrdered(portfolio: Portfolio, quotes: map<string, Quote>, clock: Clock, code: string)
    requires code in portfolio && LeaderUnlockedRule(portfolio[code], LeaderQuote(portfolio[code], quotes))
    ensures var o := Orders(portfolio, quotes, clock, portfolio.Keys);
      code in o && o[code] == LeaderUnlocked
  {
  }

  /**
   * A scan without faults followed by the sales: a code leaves exactly when
   * a rule asked for a full sale and that order filled; it is then
   * blacklisted as PG_DROP exactly when the rule was the flow drop.
   */
  lemma ScanThenSell(portfolio: Portfolio, bl: Blacklist, quotes: map<string, Quote>, partialFilled: set<string>,
                     clock: Clock, sellQuotes: map<string, Quote>, filled: set<string>)
    ensures var o := Orders(portfolio, quotes, clock, portfolio.Keys);
      var b := SellMany(Book(Scanned(portfolio, quotes, partialFilled, clock, portfolio.Keys), bl), o, sellQuotes, filled, clock.now);
      && (forall c :: c in b.portfolio <==> c in portfolio && !(c in o && c in filled))
      && (forall c :: c in portfolio && c in o && c in filled ==>
            c in b.blacklist && b.blacklist[c].sellTime == clock.now
            && (b.blacklist[c].reason == PgDrop <==> Turn(portfolio[c], c, quotes, clock).action == Sell(FlowDrop)))
  {
    var r := Scanned(portfolio, quotes, partialFilled, clock, portfolio.Keys);
    var o := Orders(portfolio, quotes, clock, portfolio.Keys);
    ScanComplete(portfolio, quotes, partialFilled, clock);
    SellManyEffect(Book(r, bl), o, sellQuotes, filled, clock.now);
  }
}
