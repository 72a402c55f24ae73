/**
 * Keeping the portfolio in line with the broker's holdings: the start-up
 * sync of monitor_portfolio (trading_bot.py:656-691) and the debounced
 * reconciliation run every tenth cycle (trading_bot.py:701-764).
 */
module Reconciliation {
  import opened Options
  import opened Candles
  import opened Positions

  /** The reconciliation runs when the cycle counter reaches this value. */
  const SyncEvery: nat := 10
  /** Positions younger than this many seconds are not checked. */
  const GraceSeconds: int := 10
  /** Consecutive absences after which a position is given up as sold by hand. */
  const MissingLimit: nat := 3
  /** The flow trough written for a hand-sold stock, high enough to block re-entry. */
  const ManualSellMinPg: int := 999_999_999_999

  /** What reconciliation touches: the portfolio, the blacklist and the absence counters. */
  datatype Books = Books(portfolio: Portfolio, blacklist: Blacklist, missing: map<string, nat>)

  /** What the broker's report means for one held code. */
  datatype Outcome = TooYoung | Absent(count: nat) | GivenUp | Present(qty: nat)

  function MissingCount(missing: map<string, nat>, code: string): nat {
    if code in missing then missing[code] else 0
  }

  function Classify(p: Position, code: string, missing: map<string, nat>, holdings: Holdings, now: int): Outcome {
    if now - p.buyTime < GraceSeconds then TooYoung
    else if code !in holdings then
      var count := MissingCount(missing, code) + 1;
      if count >= MissingLimit then GivenUp else Absent(count)
    else Present(holdings[code].qty)
  }

  function ManualSellEntry(now: int): CooldownEntry {
    CooldownEntry(ManualSell, ManualSellMinPg, now)
  }

  /** The quantity is only ever lowered to the broker's figure. */
  function Lowered(p: Position, qty: nat): (r: Position)
    ensures r.qty <= p.qty && r.qty <= qty && (r.qty == p.qty || r.qty == qty)
    ensures r == p.(qty := r.qty)
  {
    if qty < p.qty then p.(qty := qty) else p
  }

  /** One iteration of the portfolio loop, for a code still held. */
  function ReconcileCode(st: Books, code: string, holdings: Holdings, now: int): Books
    requires code in st.portfolio
  {
    match Classify(st.portfolio[code], code, st.missing, holdings, now)
    case TooYoung => st
    case Absent(n) => st.(missing := st.missing[code := n])
    case GivenUp => Books(st.portfolio - {code}, st.blacklist[code := ManualSellEntry(now)], st.missing - {code})
    case Present(q) => Books(st.portfolio[code := Lowered(st.portfolio[code], q)], st.blacklist, st.missing - {code})
  }

  // ---------------------------------------------------------------------------
  // The whole loop, stated for all codes at once
  // ---------------------------------------------------------------------------

  function OutcomeOf(st: Books, code: string, holdings: Holdings, now: int): Outcome
    requires code in st.portfolio
  {
    Classify(st.portfolio[code], code, st.missing, holdings, now)
  }

  function GivenUpIn(st: Books, holdings: Holdings, now: int, done: set<string>): set<string> {
    set c | c in done && c in st.portfolio && OutcomeOf(st, c, holdings, now).GivenUp?
  }

  function AbsentIn(st: Books, holdings: Holdings, now: int, done: set<string>): set<string> {
    set c | c in done && c in st.portfolio && OutcomeOf(st, c, holdings, now).Absent?
  }

  function PresentIn(st: Books, holdings: Holdings, now: int, done: set<string>): set<string> {
    set c | c in done && c in st.portfolio && OutcomeOf(st, c, holdings, now).Present?
  }

  function PortfolioAfter(st: Books, holdings: Holdings, now: int, done: set<string>): Portfolio {
    var gone, present := GivenUpIn(st, holdings, now, done), PresentIn(st, holdings, now, done);
    map c | c in st.portfolio && c !in gone ::
      if c in present then Lowered(st.portfolio[c], holdings[c].qty) else st.portfolio[c]
  }

  function BlacklistAfter(st: Books, holdings: Holdings, now: int, done: set<string>): Blacklist {
    var gone := GivenUpIn(st, holdings, now, done);
    map c | c in st.blacklist.Keys + gone :: if c in gone then ManualSellEntry(now) else st.blacklist[c]
  }

  function MissingAfter(st: Books, holdings: Holdings, now: int, done: set<string>): map<string, nat> {
    var gone, absent, present := GivenUpIn(st, holdings, now, done), AbsentIn(st, holdings, now, done), PresentIn(st, holdings, now, done);
    map c | c in (st.missing.Keys - gone - present) + absent ::
      if c in absent then MissingCount(st.missing, c) + 1 else st.missing[c]
  }

  /** The books once the codes in `done` have been checked, independently of the order of the checks. */
  function Checked(st: Books, holdings: Holdings, now: int, done: set<string>): Books {
    Books(PortfolioAfter(st, holdings, now, done), BlacklistAfter(st, holdings, now, done), MissingAfter(st, holdings, now, done))
  }

  /** The reconciliation pass over every held code. */
  function Reconcile(st: Books, holdings: Holdings, now: int): Books {
    Checked(st, holdings, now, st.portfolio.Keys)
  }

  lemma CheckedNone(st: Books, holdings: Holdings, now: int)
    ensures Checked(st, holdings, now, {}) == st
  {
    var r := Checked(st, holdings, now, {});
    assert r.portfolio == st.portfolio;
    assert r.blacklist == st.blacklist;
    assert r.missing == st.missing;
  }

  /** Checking one more code is one run of the loop body. */
  lemma CheckedStep(st: Books, holdings: Holdings, now: int, done: set<string>, code: string)
    requires code in st.portfolio && code !in done
    ensures var cur := Checked(st, holdings, now, done);
      code in cur.portfolio
      && Checked(st, holdings, now, done + {code}) == ReconcileCode(cur, code, holdings, now)
  {
    CheckedUntouched(st, holdings, now, done, code);
    match OutcomeOf(st, code, holdings, now) {
      case TooYoung =>
        CheckedStepTooYoung(st, holdings, now, done, code);
      case Absent(n) =>
        CheckedStepAbsent(st, holdings, now, done, code);
      case GivenUp =>
        CheckedStepGivenUp(st, holdings, now, done, code);
      case Present(q) =>
        CheckedStepPresent(st, holdings, now, done, code);
    }
  }

  /** A code not yet checked still has its record and its absence count, so it is classified as before. */
  lemma CheckedUntouched(st: Books, holdings: Holdings, now: int, done: set<string>, code: string)
    requires code in st.portfolio && code !in done
    ensures var cur := Checked(st, holdings, now, done);
      && code in cur.portfolio && cur.portfolio[code] == st.portfolio[code]
      && MissingCount(cur.missing, code) == MissingCount(st.missing, code)
      && OutcomeOf(cur, code, holdings, now) == OutcomeOf(st, code, holdings, now)
  {
    var cur := Checked(st, holdings, now, done);
    assert code !in GivenUpIn(st, holdings, now, done);
    assert cur.portfolio[code] == st.portfolio[code];
    assert MissingCount(cur.missing, code) == MissingCount(st.missing, code) by {
      assert code !in AbsentIn(st, holdings, now, done);
      assert code !in PresentIn(st, holdings, now, done);
    }
  }

  lemma CheckedStepTooYoung(st: Books, holdings: Holdings, now: int, done: set<string>, code: string)
    requires code in st.portfolio && code !in done && OutcomeOf(st, code, holdings, now).TooYoung?
    ensures Checked(st, holdings, now, done + {code}) == Checked(st, holdings, now, done)
  {
    assert GivenUpIn(st, holdings, now, done + {code}) == GivenUpIn(st, holdings, now, done);
    assert AbsentIn(st, holdings, now, done + {code}) == AbsentIn(st, holdings, now, done);
    assert PresentIn(st, holdings, now, done + {code}) == PresentIn(st, holdings, now, done);
  }

  lemma CheckedStepAbsent(st: Books, holdings: Holdings, now: int, done: set<string>, code: string)
    requires code in st.portfolio && code !in done && OutcomeOf(st, code, holdings, now).Absent?
    ensures var cur := Checked(st, holdings, now, done);
      Checked(st, holdings, now, done + {code}) ==
        cur.(missing := cur.missing[code := MissingCount(st.missing, code) + 1])
  {
    var g0, a0, p0 := GivenUpIn(st, holdings, now, done), AbsentIn(st, holdings, now, done), PresentIn(st, holdings, now, done);
    assert code !in a0 && code !in p0;
    assert GivenUpIn(st, holdings, now, done + {code}) == g0;
    assert AbsentIn(st, holdings, now, done + {code}) == a0 + {code};
    assert PresentIn(st, holdings, now, done + {code}) == p0;
    AbsentMissing(st, holdings, now, done, code, g0, a0, p0);
  }

  lemma AbsentMissing(st: Books, holdings: Holdings, now: int, done: set<string>, code: string,
                      g0: set<string>, a0: set<string>, p0: set<string>)
    requires g0 == GivenUpIn(st, holdings, now, done) && a0 == AbsentIn(st, holdings, now, done)
    requires p0 == PresentIn(st, holdings, now, done)
    requires code !in g0 && code !in p0
    requires GivenUpIn(st, holdings, now, done + {code}) == g0 && AbsentIn(st, holdings, now, done + {code}) == a0 + {code}
    requires PresentIn(st, holdings, now, done + {code}) == p0
    ensures MissingAfter(st, holdings, now, done + {code}) ==
      MissingAfter(st, holdings, now, done)[code := MissingCount(st.missing, code) + 1]
  {
  }

  lemma CheckedStepGivenUp(st: Books, holdings: Holdings, now: int, done: set<string>, code: string)
    requires code in st.portfolio && code !in done && OutcomeOf(st, code, holdings, now).GivenUp?
    ensures var cur := Checked(st, holdings, now, done);
      Checked(st, holdings, now, done + {code}) ==
        Books(cur.portfolio - {code}, cur.blacklist[code := ManualSellEntry(now)], cur.missing - {code})
  {
    GivenUpSets(st, holdings, now, done, code);
    var g0, a0, p0 := GivenUpIn(st, holdings, now, done), AbsentIn(st, holdings, now, done), PresentIn(st, holdings, now, done);
    GivenUpPortfolio(st, holdings, now, done, code, g0, p0);
    GivenUpBlacklist(st, holdings, now, done, code, g0);
    GivenUpMissing(st, holdings, now, done, code, g0, a0, p0);
  }

  lemma GivenUpPortfolio(st: Books, holdings: Holdings, now: int, done: set<string>, code: string, g0: set<string>, p0: set<string>)
    requires g0 == GivenUpIn(st, holdings, now, done) && p0 == PresentIn(st, holdings, now, done)
    requires GivenUpIn(st, holdings, now, done + {code}) == g0 + {code} && code !in p0
    requires PresentIn(st, holdings, now, done + {code}) == p0
    ensures PortfolioAfter(st, holdings, now, done + {code}) == PortfolioAfter(st, holdings, now, done) - {code}
  {
  }

  lemma GivenUpBlacklist(st: Books, holdings: Holdings, now: int, done: set<string>, code: string, g0: set<string>)
    requires g0 == GivenUpIn(st, holdings, now, done)
    requires GivenUpIn(st, holdings, now, done + {code}) == g0 + {code}
    ensures BlacklistAfter(st, holdings, now, done + {code}) == BlacklistAfter(st, holdings, now, done)[code := ManualSellEntry(now)]
  {
  }

  lemma GivenUpMissing(st: Books, holdings: Holdings, now: int, done: set<string>, code: string,
                       g0: set<string>, a0: set<string>, p0: set<string>)
    requires g0 == GivenUpIn(st, holdings, now, done) && a0 == AbsentIn(st, holdings, now, done)
    requires p0 == PresentIn(st, holdings, now, done)
    requires GivenUpIn(st, holdings, now, done + {code}) == g0 + {code} && code !in a0 && code !in p0
    requires AbsentIn(st, holdings, now, done + {code}) == a0 && PresentIn(st, holdings, now, done + {code}) == p0
    ensures MissingAfter(st, holdings, now, done + {code}) == MissingAfter(st, holdings, now, done) - {code}
  {
  }

  lemma GivenUpSets(st: Books, holdings: Holdings, now: int, done: set<string>, code: string)
    requires code in st.portfolio && code !in done && OutcomeOf(st, code, holdings, now).GivenUp?
    ensures code !in GivenUpIn(st, holdings, now, done) && code !in AbsentIn(st, holdings, now, done)
    ensures code !in PresentIn(st, holdings, now, done)
    ensures GivenUpIn(st, holdings, now, done + {code}) == GivenUpIn(st, holdings, now, done) + {code}
    ensures AbsentIn(st, holdings, now, done + {code}) == AbsentIn(st, holdings, now, done)
    ensures PresentIn(st, holdings, now, done + {code}) == PresentIn(st, holdings, now, done)
  {
  }

  lemma CheckedStepPresent(st: Books, holdings: Holdings, now: int, done: set<string>, code: string)
    requires code in st.portfolio && code !in done && OutcomeOf(st, code, holdings, now).Present?
    ensures var cur := Checked(st, holdings, now, done);
      Checked(st, holdings, now, done + {code}) ==
        Books(cur.portfolio[code := Lowered(st.portfolio[code], holdings[code].qty)], cur.blacklist, cur.missing - {code})
  {
    var g0, a0, p0 := GivenUpIn(st, holdings, now, done), AbsentIn(st, holdings, now, done), PresentIn(st, holdings, now, done);
    assert code !in g0 && code !in a0;
    assert GivenUpIn(st, holdings, now, done + {code}) == g0;
    assert AbsentIn(st, holdings, now, done + {code}) == a0;
    assert PresentIn(st, holdings, now, done + {code}) == p0 + {code};
    PresentPortfolio(st, holdings, now, done, code, g0, p0);
    PresentMissing(st, holdings, now, done, code, g0, a0, p0);
  }

  lemma PresentPortfolio(st: Books, holdings: Holdings, now: int, done: set<string>, code: string, g0: set<string>, p0: set<string>)
    requires code in st.portfolio && code in holdings
    requires g0 == GivenUpIn(st, holdings, now, done) && p0 == PresentIn(st, holdings, now, done)
    requires code !in g0
    requires GivenUpIn(st, holdings, now, done + {code}) == g0 && PresentIn(st, holdings, now, done + {code}) == p0 + {code}
    ensures PortfolioAfter(st, holdings, now, done + {code}) ==
      PortfolioAfter(st, holdings, now, done)[code := Lowered(st.portfolio[code], holdings[code].qty)]
  {
  }

  lemma PresentMissing(st: Books, holdings: Holdings, now: int, done: set<string>, code: string,
                       g0: set<string>, a0: set<string>, p0: set<string>)
    requires g0 == GivenUpIn(st, holdings, now, done) && a0 == AbsentIn(st, holdings, now, done)
    requires p0 == PresentIn(st, holdings, now, done)
    requires code !in g0 && code !in a0
    requires GivenUpIn(st, holdings, now, done + {code}) == g0 && AbsentIn(st, holdings, now, done + {code}) == a0
    requires PresentIn(st, holdings, now, done + {code}) == p0 + {code}
    ensures MissingAfter(st, holdings, now, done + {code}) == MissingAfter(st, holdings, now, done) - {code}
  {
  }

  /** The portfolio pass over the codes in the order it visits them; a code no longer held is skipped. */
  function CheckedInOrder(st: Books, holdings: Holdings, now: int, order: seq<string>): Books
    decreases |order|
  {
    if order == [] then st
    else
      var cur := CheckedInOrder(st, holdings, now, order[..|order| - 1]);
      var code := order[|order| - 1];
      if code in cur.portfolio then ReconcileCode(cur, code, holdings, now) else cur
  }

  /** Visiting one more held code runs the loop body once on the books so far. */
  lemma CheckedInOrderStep(st: Books, holdings: Holdings, now: int, order: seq<string>, code: string)
    requires code in CheckedInOrder(st, holdings, now, order).portfolio
    ensures CheckedInOrder(st, holdings, now, order + [code])
         == ReconcileCode(CheckedInOrder(st, holdings, now, order), code, holdings, now)
  {
    assert (order + [code])[..|order|] == order;
  }

  /** Visiting the held codes once each, in any order, gives the same books. */
  lemma {:induction false} CheckedInOrderAnyOrder(st: Books, holdings: Holdings, now: int, order: seq<string>)
    requires forall i, j :: 0 <= i < j < |order| ==> order[i] != order[j]
    requires forall i :: 0 <= i < |order| ==> order[i] in st.portfolio
    ensures CheckedInOrder(st, holdings, now, order) == Checked(st, holdings, now, set c | c in order)
    decreases |order|
  {
    if order == [] {
      CheckedNone(st, holdings, now);
      assert (set c | c in order) == {};
    } else {
      var init, code := order[..|order| - 1], order[|order| - 1];
      CheckedInOrderAnyOrder(st, holdings, now, init);
      assert (set c | c in order) == (set c | c in init) + {code};
      CheckedStep(st, holdings, now, (set c | c in init), code);
    }
  }

  // ---------------------------------------------------------------------------
  // Properties of the reconciliation pass
  // ---------------------------------------------------------------------------

  /**
   * Per held code: a young position is untouched; an absent one has its
   * counter raised, and is dropped and blacklisted (MANUAL_SELL) exactly when
   * the counter reaches 3; a present one has its counter cleared and its
   * quantity lowered to the broker's figure if that is smaller.
   */
  lemma ReconcileHeld(st: Books, holdings: Holdings, now: int, code: string)
    requires code in st.portfolio
    ensures var r, p := Reconcile(st, holdings, now), st.portfolio[code];
      && (now - p.buyTime < GraceSeconds ==>
            code in r.portfolio && r.portfolio[code] == p
            && (code in r.missing <==> code in st.missing)
            && (code in st.missing ==> r.missing[code] == st.missing[code]))
      && (now - p.buyTime >= GraceSeconds && code !in holdings ==>
            (code !in r.portfolio <==> MissingCount(st.missing, code) + 1 >= MissingLimit)
            && (code in r.portfolio ==> r.portfolio[code] == p && code in r.missing
                                        && r.missing[code] == MissingCount(st.missing, code) + 1)
            && (code !in r.portfolio ==> code in r.blacklist && r.blacklist[code] == ManualSellEntry(now)
                                         && code !in r.missing))
      && (now - p.buyTime >= GraceSeconds && code in holdings ==>
            code in r.portfolio && code !in r.missing
            && r.portfolio[code] == p.(qty := if holdings[code].qty < p.qty then holdings[code].qty else p.qty))
  {
  }

  /** Codes not held are left alone in the blacklist and in the counters. */
  lemma ReconcileLeavesOthers(st: Books, holdings: Holdings, now: int, code: string)
    requires code !in st.portfolio
    ensures var r := Reconcile(st, holdings, now);
      && code !in r.portfolio
      && (code in r.blacklist <==> code in st.blacklist)
      && (code in st.blacklist ==> r.blacklist[code] == st.blacklist[code])
      && (code in r.missing <==> code in st.missing)
      && (code in st.missing ==> r.missing[code] == st.missing[code])
  {
  }

  /** No position is created and no quantity is raised. */
  lemma ReconcileNeverRaises(st: Books, holdings: Holdings, now: int)
    ensures var r := Reconcile(st, holdings, now);
      forall c :: c in r.portfolio ==> c in st.portfolio && r.portfolio[c].qty <= st.portfolio[c].qty
  {
  }

  /**
   * Three passes in a row that do not find a held, settled position drop it
   * on the third and not before.
   */
  lemma ThirdAbsenceGivesUp(st: Books, holdings: Holdings, code: string, t1: int, t2: int, t3: int)
    requires code in st.portfolio && code !in st.missing && code !in holdings
    requires st.portfolio[code].buyTime + GraceSeconds <= t1 <= t2 <= t3
    ensures var r1 := Reconcile(st, holdings, t1);
      var r2 := Reconcile(r1, holdings, t2);
      var r3 := Reconcile(r2, holdings, t3);
      && code in r1.portfolio && code in r1.missing && r1.missing[code] == 1
      && code in r2.portfolio && code in r2.missing && r2.missing[code] == 2
      && code !in r3.portfolio && code in r3.blacklist && r3.blacklist[code] == ManualSellEntry(t3)
  {
    var r1 := Reconcile(st, holdings, t1);
    ReconcileHeld(st, holdings, t1, code);
    assert code in r1.portfolio && r1.portfolio[code] == st.portfolio[code] && MissingCount(r1.missing, code) == 1;
    var r2 := Reconcile(r1, holdings, t2);
    ReconcileHeld(r1, holdings, t2, code);
    assert code in r2.portfolio && r2.portfolio[code] == st.portfolio[code] && MissingCount(r2.missing, code) == 2;
    ReconcileHeld(r2, holdings, t3, code);
  }

  /** A position that shows up again before the third miss restarts its count. */
  lemma ReappearanceClearsCount(st: Books, holdings: Holdings, code: string, now: int)
    requires code in st.portfolio && code in holdings
    requires st.portfolio[code].buyTime + GraceSeconds <= now
    ensures var r := Reconcile(st, holdings, now); code in r.portfolio && MissingCount(r.missing, code) == 0
  {
    ReconcileHeld(st, holdings, now, code);
  }

  // ---------------------------------------------------------------------------
  // Recovery of holdings the bot does not know
  // ---------------------------------------------------------------------------

  /** The record the reconciliation creates for a broker holding it did not know. */
  function RecoveredPosition(h: Holding, now: int): Position {
    Position(h.name, h.qty, h.avgPrice, h.avgPrice, None, "Unknown", Recovered, false, 0.0, false, now, 0, 0, EmptyMemory, None)
  }

  /** The portfolio after the holdings in `done` have been looked at. */
  function RecoveredSoFar(portfolio: Portfolio, blacklist: Blacklist, holdings: Holdings, now: int, done: set<string>): Portfolio {
    map c | c in portfolio.Keys + (set h | h in holdings && h in done && h !in blacklist) ::
      if c in portfolio then portfolio[c] else RecoveredPosition(holdings[c], now)
  }

  /** Every holding neither held nor blacklisted is taken back under management. */
  function Recover(portfolio: Portfolio, blacklist: Blacklist, holdings: Holdings, now: int): Portfolio {
    RecoveredSoFar(portfolio, blacklist, holdings, now, holdings.Keys)
  }

  lemma RecoveredSoFarNone(portfolio: Portfolio, blacklist: Blacklist, holdings: Holdings, now: int)
    ensures RecoveredSoFar(portfolio, blacklist, holdings, now, {}) == portfolio
  {
  }

  /** Looking at one more holding is one run of the loop body. */
  lemma RecoveredSoFarStep(portfolio: Portfolio, blacklist: Blacklist, holdings: Holdings, now: int,
                           done: set<string>, code: string)
    requires code in holdings && code !in done
    ensures var cur := RecoveredSoFar(portfolio, blacklist, holdings, now, done);
      RecoveredSoFar(portfolio, blacklist, holdings, now, done + {code}) ==
        if code !in cur && code !in blacklist then cur[code := RecoveredPosition(holdings[code], now)] else cur
  {
    var cur := RecoveredSoFar(portfolio, blacklist, holdings, now, done);
    var next := RecoveredSoFar(portfolio, blacklist, holdings, now, done + {code});
    if code !in cur && code !in blacklist {
      assert next == cur[code := RecoveredPosition(holdings[code], now)];
    } else {
      assert next == cur;
    }
  }

  /**
   * Existing entries are not modified; exactly the holdings neither held nor
   * blacklisted are added, as RECOVERED at level 0 with the broker's average
   * price as buy and reference price.
   */
  lemma RecoverEffect(portfolio: Portfolio, blacklist: Blacklist, holdings: Holdings, now: int)
    ensures var r := Recover(portfolio, blacklist, holdings, now);
      && (forall c :: c in portfolio ==> c in r && r[c] == portfolio[c])
      && (forall c :: c in r && c !in portfolio <==> c in holdings && c !in portfolio && c !in blacklist)
      && (forall c :: c in r && c !in portfolio ==>
            r[c].strategy == Recovered && r[c].pyramidLevel == 0
            && r[c].refPrice == holdings[c].avgPrice && r[c].buyPrice == holdings[c].avgPrice
            && r[c].qty == holdings[c].qty && r[c].buyTime == now && r[c].stats.None?)
  {
  }

  /** Every tenth cycle of the monitor runs the reconciliation; the counter then restarts. */
  predicate SyncDue(counter: nat) {
    counter + 1 >= SyncEvery
  }

  /**
   * The books after the periodic block: when due and the holdings read
   * succeeded, the portfolio pass and then the recovery pass; otherwise
   * nothing changes.
   */
  function Synced(st: Books, due: bool, holdings: Option<Holdings>, now: int): (r: Books)
    ensures !due || holdings.None? ==> r == st
  {
    if due && holdings.Some? then
      var b := Reconcile(st, holdings.value, now);
      b.(portfolio := Recover(b.portfolio, b.blacklist, holdings.value, now))
    else st
  }

  /**
   * A due pass keeps every code that is still reported or still young, adds
   * only recovered holdings, and never raises the quantity of a code it kept.
   */
  lemma SyncedEffect(st: Books, holdings: Holdings, now: int)
    ensures var r := Synced(st, true, Some(holdings), now);
      && (forall c :: c in st.portfolio && (c in holdings || now - st.portfolio[c].buyTime < GraceSeconds) ==> c in r.portfolio)
      && (forall c :: c in r.portfolio && c !in st.portfolio ==>
            c in holdings && c !in st.blacklist && r.portfolio[c] == RecoveredPosition(holdings[c], now))
      && (forall c :: c in r.portfolio && c in st.portfolio ==> r.portfolio[c].qty <= st.portfolio[c].qty)
  {
    var b := Reconcile(st, holdings, now);
    forall c | c in st.portfolio && (c in holdings || now - st.portfolio[c].buyTime < GraceSeconds)
      ensures c in b.portfolio
    {
      ReconcileHeld(st, holdings, now, c);
    }
    forall c | c !in st.portfolio
      ensures c !in b.portfolio && (c in b.blacklist <==> c in st.blacklist)
    {
      ReconcileLeavesOthers(st, holdings, now, c);
    }
    ReconcileNeverRaises(st, holdings, now);
    RecoverEffect(b.portfolio, b.blacklist, holdings, now);
  }

  // ---------------------------------------------------------------------------
  // Start-up sync
  // ---------------------------------------------------------------------------

  /** The record the start-up sync creates for a holding it did not know. */
  function RestoredPosition(h: Holding, now: int): Position {
    Position(h.name, h.qty, h.avgPrice, h.avgPrice, None, "Unknown", Unknown, false, 0.0, false, now, 0, 0,
             EmptyMemory, Some(Stats(0, 0, h.avgPrice, h.avgPrice)))
  }

  /** Holdings as the start-up code reads them: a failed read (None) or an empty report adds nothing. */
  function Reported(holdings: Option<Holdings>): Holdings {
    if holdings.Some? then holdings.value else map[]
  }

  /**
   * The start-up sync as the source writes it: restore unknown holdings, then
   * delete every position whose code the read did not report. The deletion
   * is not guarded by the success of the read.
   */
  function StartupSyncAsWritten(portfolio: Portfolio, holdings: Option<Holdings>, now: int): Portfolio {
    var reported := Reported(holdings);
    map c | c in reported :: if c in portfolio then portfolio[c] else RestoredPosition(reported[c], now)
  }

  /** A failed holdings read at start-up deletes every position the bot holds. */
  lemma StartupSyncAsWrittenWipes(portfolio: Portfolio, now: int)
    requires |portfolio| > 0
    ensures StartupSyncAsWritten(portfolio, None, now) == map[]
    ensures StartupSyncAsWritten(portfolio, None, now) != portfolio
  {
  }

  /**
   * What the wipe costs: the next due periodic pass whose read succeeds
   * adopts back exactly the reported codes that are not blacklisted, each as
   * a fresh RECOVERED record; strategy, leader, reference price, high-water
   * mark, partial-sale flag, pyramid level, statistics and buy time of the
   * wiped record are gone.
   */
  lemma WipeIsReadopted(portfolio: Portfolio, bl: Blacklist, missing: map<string, nat>, h: Holdings, t0: int, t1: int)
    ensures var r := Synced(Books(StartupSyncAsWritten(portfolio, None, t0), bl, missing), true, Some(h), t1);
      forall c :: (c in r.portfolio <==> c in h && c !in bl)
                  && (c in r.portfolio ==> r.portfolio[c] == RecoveredPosition(h[c], t1)
                                           && r.portfolio[c].strategy == Recovered && r.portfolio[c].stats.None?)
  {
    var wiped := StartupSyncAsWritten(portfolio, None, t0);
    assert wiped == map[];
    var st := Books(wiped, bl, missing);
    SyncedEffect(st, h, t1);
    var b := Reconcile(st, h, t1);
    forall c | c in h && c !in bl
      ensures c in Synced(st, true, Some(h), t1).portfolio
    {
      ReconcileLeavesOthers(st, h, t1, c);
      RecoverEffect(b.portfolio, b.blacklist, h, t1);
    }
  }

  /** The start-up sync with the deletion skipped when the read failed, as the periodic pass does. */
  function StartupSync(portfolio: Portfolio, holdings: Option<Holdings>, now: int): Portfolio {
    if holdings.None? then portfolio else StartupSyncAsWritten(portfolio, holdings, now)
  }

  /**
   * A failed read leaves the portfolio alone; a successful one makes the
   * portfolio's codes exactly the reported ones, keeps every known entry and
   * restores the others as UNKNOWN with seeded statistics.
   */
  lemma StartupSyncEffect(portfolio: Portfolio, holdings: Option<Holdings>, now: int)
    ensures var r := StartupSync(portfolio, holdings, now);
      && (holdings.None? ==> r == portfolio)
      && (holdings.Some? ==>
            && r.Keys == holdings.value.Keys
            && (forall c :: c in r && c in portfolio ==> r[c] == portfolio[c])
            && (forall c :: c in r && c !in portfolio ==>
                  r[c] == RestoredPosition(holdings.value[c], now) && r[c].strategy == Unknown))
  {
  }

  /** The first loop of the start-up sync once the reported codes in `done` are looked at. */
  function RestoredSoFar(portfolio: Portfolio, holdings: Holdings, now: int, done: set<string>): Portfolio {
    map c | c in portfolio.Keys + (set h | h in holdings && h in done) ::
      if c in portfolio then portfolio[c] else RestoredPosition(holdings[c], now)
  }

  /** The second loop once the codes in `done` are looked at: a looked-at code the read did not report is gone. */
  function PrunedSoFar(portfolio: Portfolio, holdings: Holdings, done: set<string>): Portfolio {
    map c | c in portfolio && (c in holdings || c !in done) :: portfolio[c]
  }

  lemma RestoredSoFarStep(portfolio: Portfolio, holdings: Holdings, now: int, done: set<string>, code: string)
    requires code in holdings && code !in done
    ensures RestoredSoFar(portfolio, holdings, now, {}) == portfolio
    ensures var cur := RestoredSoFar(portfolio, holdings, now, done);
      RestoredSoFar(portfolio, holdings, now, done + {code})
        == if code in cur then cur else cur[code := RestoredPosition(holdings[code], now)]
  {
    var cur := RestoredSoFar(portfolio, holdings, now, done);
    var next := RestoredSoFar(portfolio, holdings, now, done + {code});
    if code in cur {
      assert next == cur;
    } else {
      assert next == cur[code := RestoredPosition(holdings[code], now)];
    }
  }

  lemma PrunedSoFarStep(portfolio: Portfolio, holdings: Holdings, done: set<string>, code: string)
    requires code in portfolio && code !in done
    ensures PrunedSoFar(portfolio, holdings, {}) == portfolio
    ensures var cur := PrunedSoFar(portfolio, holdings, done);
      PrunedSoFar(portfolio, holdings, done + {code}) == if code in holdings then cur else cur - {code}
  {
  }

  /** Both loops over everything are the sync on a successful read. */
  lemma StartupSyncLoops(portfolio: Portfolio, holdings: Holdings, now: int)
    ensures var restored := RestoredSoFar(portfolio, holdings, now, holdings.Keys);
      PrunedSoFar(restored, holdings, restored.Keys) == StartupSync(portfolio, Some(holdings), now)
  {
  }

  /** On a successful read the sync is idempotent. */
  lemma StartupSyncIdempotent(portfolio: Portfolio, holdings: Holdings, now: int)
    ensures StartupSync(StartupSync(portfolio, Some(holdings), now), Some(holdings), now)
         == StartupSync(portfolio, Some(holdings), now)
  {
  }
}
