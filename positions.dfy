/**
 * The records the trading bot keeps per held stock and per recently sold
 * stock, the quote fields its bookkeeping reads, and its configuration
 * constants (trading_bot.py, class BotConfig and class TradingBot).
 */
module Positions {
  import opened Options
  import opened Candles

  datatype Strategy = Theme | Program | Morning | Recovered | Unknown

  /** The fields of a `fetch_price_detail` result the bookkeeping reads. */
  datatype Quote = Quote(
    name: string,
    price: int,
    maxPrice: int,     // the daily upper limit price
    programBuy: int,   // net program-buy quantity
    totalAsk: int,
    totalBid: int)

  /** Program net-buy amount in won: quantity times price. */
  function FlowAmount(q: Quote): int {
    q.programBuy * q.price
  }

  /** The analysis fields `stats_entry_pg`, `stats_max_pg`, `stats_max_price`, `stats_min_price`. */
  datatype Stats = Stats(entryPg: int, maxPg: int, maxPrice: real, minPrice: real)

  /**
   * One portfolio entry. Fields some creation paths leave out are stored with
   * the default the bot reads them with (`.get` defaults): reference price =
   * buy price, level 0, high-water mark 0, no partial sale, flow peak 0, no
   * leader. Only the statistics block is optional: positions recovered by
   * the periodic reconciliation do not have it until the first quote seeds it.
   */
  datatype Position = Position(
    name: string,
    qty: nat,
    buyPrice: real,
    refPrice: real,
    leader: Option<string>,
    leaderName: string,
    strategy: Strategy,
    leaderWasLocked: bool,
    maxProfitRate: real,
    hasPartialSold: bool,
    buyTime: int,
    pyramidLevel: int,
    maxPgAmt: int,
    candles: CandleMemory,
    stats: Option<Stats>)

  /** One row of `fetch_my_stock_list`: the broker only reports rows with a positive quantity. */
  datatype Holding = Holding(name: string, qty: nat, avgPrice: real)

  datatype CooldownReason = PgDrop | Normal | ManualSell

  /** A blacklist entry: why the stock left, the flow trough being tracked, and when. */
  datatype CooldownEntry = CooldownEntry(reason: CooldownReason, minPgAmt: int, sellTime: int)

  /** The reason attached to a sell decision; only `FlowDrop` carries the flow-exit marker text. */
  datatype ExitReason =
    | LeaderUnlocked
    | FlowDrop
    | TrendBreak
    | LimitUp
    | TrailingStop
    | GiveBack
    | TimeStop
    | StopLoss
    | SmallLotTake
    | MarketClose
    | RemoteSell

  type Portfolio = map<string, Position>
  type Blacklist = map<string, CooldownEntry>
  type Holdings = map<string, Holding>

  // BotConfig
  const MaxGlobalSlots: int := 6
  const InvestRatio: real := 0.15
  const RebuyCooltimeMinutes: int := 480
  const PgDropRateTrigger: real := 0.30
  const PartialProfitRate: real := 0.02
  const StopLossRate: real := -0.02
  const MorningStopLossRate: real := -0.01
  const TsTriggerRate: real := 0.04
  const TsStopGap: real := 0.02
  const TsTightGap: real := 0.01
  const TimeStopMinutes: int := 600
  const TimeStopProfit: real := 0.0
  const PgLevel0Amt: int := 5_000_000_000
  const PgTimeFilter0: int := 5_000_000_000
  const PgTimeFilter1: int := 20_000_000_000
  const PgMilestones: seq<int> :=
    [5_000_000_000, 20_000_000_000, 50_000_000_000, 100_000_000_000, 150_000_000_000, 200_000_000_000]
}
