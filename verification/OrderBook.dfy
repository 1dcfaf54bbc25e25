/** The simulated order book: recentring, resting liquidity, market and limit orders.

    `Book` is the state as a value and the functions on it say what each
    operation does; `SimulatedOrderBook` is the object whose methods update its
    ladders in place and are proved against those functions. */
module OrderBook {
  import opened Market
  import opened Rounding
  import opened Ladder

  /** Ticks of depth kept on each side by a recentre. */
  const DEPTH_TICKS := 20

  datatype Book = Book(
    tickSize: PositiveReal,
    spreadBps: real,
    multiplier: real,
    baseDepth: int,
    bids: Depth,
    asks: Depth,
    mid: real)

  // ---------------------------------------------------------------------
  // Prices
  // ---------------------------------------------------------------------

  /** The tick count of a price, rounded half up. */
  function RoundTicks(tickSize: PositiveReal, price: real): int {
    RoundHalfUp(price / tickSize)
  }

  function PriceOf(tickSize: PositiveReal, ticks: int): real {
    ticks as real * tickSize
  }

  function EffectiveBps(spreadBps: real, multiplier: real): real {
    spreadBps * multiplier
  }

  /** The rounded spread around a mid, in ticks. */
  function RoundedSpread(tickSize: PositiveReal, bps: real, mid: real): int {
    RoundTicks(tickSize, mid * (bps / 10000.0))
  }

  function QuoteBid(tickSize: PositiveReal, spreadTicks: int, mid: real): int {
    RoundTicks(tickSize, mid - PriceOf(tickSize, spreadTicks) / 2.0)
  }

  function QuoteAsk(tickSize: PositiveReal, spreadTicks: int, mid: real): int {
    RoundTicks(tickSize, mid + PriceOf(tickSize, spreadTicks) / 2.0)
  }

  function SpreadTicks(b: Book, mid: real): int {
    RoundedSpread(b.tickSize, EffectiveBps(b.spreadBps, b.multiplier), mid)
  }

  function NewBestBid(b: Book, mid: real): int {
    QuoteBid(b.tickSize, SpreadTicks(b, mid), mid)
  }

  function NewBestAsk(b: Book, mid: real): int {
    QuoteAsk(b.tickSize, SpreadTicks(b, mid), mid)
  }

  // ---------------------------------------------------------------------
  // Operations
  // ---------------------------------------------------------------------

  /** Keep the levels from `low` to `high`, and put base depth at `best` if nothing rests there. */
  function Window(book: Depth, low: int, high: int, best: int, depth: int): Depth {
    var kept := map p | p in book && low <= p <= high :: book[p];
    if best in kept then kept else kept[best := depth]
  }

  function RecentredAt(b: Book, mid: real, bid: int, ask: int): Book {
    b.(mid := mid,
       bids := Window(b.bids, bid - DEPTH_TICKS, bid, bid, b.baseDepth),
       asks := Window(b.asks, ask, ask + DEPTH_TICKS, ask, b.baseDepth))
  }

  function Recentred(b: Book, mid: real): Book {
    RecentredAt(b, mid, NewBestBid(b, mid), NewBestAsk(b, mid))
  }

  /** book[price] = book.get(price, 0) + quantity */
  function Added(book: Depth, price: int, quantity: int): Depth {
    book[price := (if price in book then book[price] else 0) + quantity]
  }

  function WithLiquidity(b: Book, side: Side, price: real, quantity: int): Book {
    WithLevel(b, side, RoundTicks(b.tickSize, price), quantity)
  }

  function WithLevel(b: Book, side: Side, ticks: int, quantity: int): Book {
    if side.Buy? then b.(bids := Added(b.bids, ticks, quantity)) else b.(asks := Added(b.asks, ticks, quantity))
  }

  /** The ladder an order on this side consumes. */
  function Facing(b: Book, side: Side): Depth {
    if side.Buy? then b.asks else b.bids
  }

  function WithFacing(b: Book, side: Side, depth: Depth): Book {
    if side.Buy? then b.(asks := depth) else b.(bids := depth)
  }

  function Swept(b: Book, side: Side, limit: Option<int>, quantity: int): Sweep {
    Walk(side, limit, Listing(side, Facing(b, side)), quantity)
  }

  function AfterSweep(b: Book, side: Side, limit: Option<int>, quantity: int): Book {
    WithFacing(b, side, FromListing(Swept(b, side, limit, quantity).rest))
  }

  function AfterMarketOrder(b: Book, side: Side, quantity: int): Book {
    AfterSweep(b, side, None, quantity)
  }

  function AfterLimitOrder(b: Book, side: Side, price: real, quantity: int): Book {
    var limit := RoundTicks(b.tickSize, price);
    var swept := AfterSweep(b, side, Some(limit), quantity);
    var resting := Swept(b, side, Some(limit), quantity).remaining;
    if resting > 0 then WithLiquidity(swept, side, PriceOf(b.tickSize, limit), resting) else swept
  }

  function Ticks(instrument: string, tickSize: PositiveReal, side: Side, timestamp: int, fills: seq<Level>): (t: seq<TradeTick>)
    ensures |t| == |fills|
  {
    seq(|fills|, i requires 0 <= i < |fills| =>
      TradeTick(instrument, PriceOf(tickSize, fills[i].price), fills[i].quantity, side, timestamp, false))
  }

  // ---------------------------------------------------------------------
  // The object
  // ---------------------------------------------------------------------

  class SimulatedOrderBook {
    const instrumentId: string
    const tickSize: PositiveReal
    const baseSpreadBps: real
    const baseDepth: int
    var spreadMultiplier: real
    var bids: Depth
    var asks: Depth
    var mid: real

    ghost function State(): Book
      reads this
    {
      Book(tickSize, baseSpreadBps, spreadMultiplier, baseDepth, bids, asks, mid)
    }

    constructor (instrument: string, tick: PositiveReal, spreadBps: real, averageDailyVolume: int, tradingMinutes: int)
      requires tradingMinutes > 0
      ensures instrumentId == instrument
      ensures State() == Book(tick, spreadBps, 1.0, Max(1, averageDailyVolume / (tradingMinutes * 5)), map[], map[], 100.0)
    {
      instrumentId := instrument;
      tickSize := tick;
      baseSpreadBps := spreadBps;
      spreadMultiplier := 1.0;
      baseDepth := Max(1, averageDailyVolume / (tradingMinutes * 5));
      bids, asks := map[], map[];
      mid := 100.0;
    }

    method SetSpreadMultiplier(multiplier: real)
      modifies this`spreadMultiplier
      ensures State() == old(State()).(multiplier := if multiplier < 0.5 then 0.5 else multiplier)
    {
      spreadMultiplier := if multiplier < 0.5 then 0.5 else multiplier;
    }

    method UpdateMid(newMid: real)
      modifies this`mid, this`bids, this`asks
      ensures State() == Recentred(old(State()), newMid)
    {
      mid := newMid;
      var spread := RoundedSpread(tickSize, EffectiveBps(baseSpreadBps, spreadMultiplier), mid);
      DropStaleLevels(QuoteBid(tickSize, spread, newMid), QuoteAsk(tickSize, spread, newMid));
    }

    /** The second half of update_mid: filter both ladders and refill the best prices. */
    method DropStaleLevels(newBestBid: int, newBestAsk: int)
      modifies this`bids, this`asks
      ensures State() == RecentredAt(old(State()), mid, newBestBid, newBestAsk)
    {
      bids := map p | p in bids && p <= newBestBid && p >= newBestBid - DEPTH_TICKS :: bids[p];
      asks := map p | p in asks && p >= newBestAsk && p <= newBestAsk + DEPTH_TICKS :: asks[p];
      assert bids == map p | p in old(bids) && newBestBid - DEPTH_TICKS <= p <= newBestBid :: old(bids)[p];
      assert asks == map p | p in old(asks) && newBestAsk <= p <= newBestAsk + DEPTH_TICKS :: old(asks)[p];
      if newBestBid !in bids {
        bids := bids[newBestBid := baseDepth];
      }
      if newBestAsk !in asks {
        asks := asks[newBestAsk := baseDepth];
      }
    }

    method AddLiquidity(side: Side, price: real, quantity: int)
      modifies this`bids, this`asks
      ensures State() == WithLiquidity(old(State()), side, price, quantity)
    {
      var p := RoundTicks(tickSize, price);
      if side.Buy? {
        bids := Added(bids, p, quantity);
      } else {
        asks := Added(asks, p, quantity);
      }
    }

    method SweepBook(side: Side, limit: Option<int>, quantity: int, timestamp: int)
      returns (ticks: seq<TradeTick>, remaining: int)
      modifies this`bids, this`asks
      ensures State() == AfterSweep(old(State()), side, limit, quantity)
      ensures var w := Swept(old(State()), side, limit, quantity);
        && ticks == Ticks(instrumentId, tickSize, side, timestamp, w.fills)
        && remaining == w.remaining
    {
      var fills;
      if side.Buy? {
        asks, fills, remaining := WalkBook(asks, side, limit, quantity);
      } else {
        bids, fills, remaining := WalkBook(bids, side, limit, quantity);
      }
      ticks := Ticks(instrumentId, tickSize, side, timestamp, fills);
    }

    method ExecuteMarketOrder(side: Side, quantity: int, timestamp: int) returns (ticks: seq<TradeTick>)
      modifies this`bids, this`asks
      ensures State() == AfterMarketOrder(old(State()), side, quantity)
      ensures ticks == Ticks(instrumentId, tickSize, side, timestamp, Swept(old(State()), side, None, quantity).fills)
    {
      var remaining;
      ticks, remaining := SweepBook(side, None, quantity, timestamp);
    }

    method ExecuteLimitOrder(side: Side, price: real, quantity: int, timestamp: int)
      returns (ticks: seq<TradeTick>, resting: int)
      modifies this`bids, this`asks
      ensures State() == AfterLimitOrder(old(State()), side, price, quantity)
      ensures var w := Swept(old(State()), side, Some(RoundTicks(tickSize, price)), quantity);
        && ticks == Ticks(instrumentId, tickSize, side, timestamp, w.fills)
        && resting == w.remaining
    {
      var limit := RoundTicks(tickSize, price);
      ticks, resting := SweepBook(side, Some(limit), quantity, timestamp);
      if resting > 0 {
        AddLiquidity(side, PriceOf(tickSize, limit), resting);
      }
    }
  }

  /** The loop shared by market and limit orders: it decrements and deletes levels
      of the dictionary while following a sorted snapshot of its keys. */
  method WalkBook(book: Depth, side: Side, limit: Option<int>, quantity: int)
    returns (left: Depth, fills: seq<Level>, remaining: int)
    ensures var w := Walk(side, limit, Listing(side, book), quantity);
      left == FromListing(w.rest) && fills == w.fills && remaining == w.remaining
  {
    ListingIsFaithful(side, book);
    left, fills, remaining := WalkListing(Listing(side, book), book, side, limit, quantity);
  }

  method WalkListing(listing: seq<Level>, book: Depth, side: Side, limit: Option<int>, quantity: int)
    returns (left: Depth, fills: seq<Level>, remaining: int)
    requires Ordered(side, listing) && book == FromListing(listing)
    ensures var w := Walk(side, limit, listing, quantity);
      left == FromListing(w.rest) && fills == w.fills && remaining == w.remaining
  {
    ghost var rest := listing;
    var ahead := listing;
    left, fills, remaining := book, [], quantity;
    while ahead != [] && remaining > 0 && Reaches(side, limit, ahead[0].price)
      invariant remaining > 0 ==> rest == ahead
      invariant Walking(side, limit, listing, quantity, rest, left, fills, remaining)
      decreases |ahead|
    {
      WalkingStep(side, limit, listing, quantity, rest, left, fills, remaining);
      var price := ahead[0].price;
      var available := left[price];
      var fillQty := Min(remaining, available);
      fills := fills + [Level(price, fillQty)];
      left := left[price := available - fillQty];
      left := if left[price] <= 0 then left - {price} else left;
      rest := TopReduced(rest, fillQty);
      remaining := remaining - fillQty;
      ahead := ahead[1..];
    }
    assert Walk(side, limit, rest, remaining) == Sweep([], rest, remaining);
  }

  /** The loop's state: the dictionary is the listing still to be walked, and the
      fills so far complete the walk of the rest to the walk of the whole. */
  ghost predicate Walking(
    side: Side, limit: Option<int>, listing: seq<Level>, quantity: int,
    rest: seq<Level>, left: Depth, fills: seq<Level>, remaining: int)
  {
    var w := Walk(side, limit, rest, remaining);
    && Ordered(side, rest)
    && left == FromListing(rest)
    && Walk(side, limit, listing, quantity) == Sweep(fills + w.fills, w.rest, w.remaining)
  }

  lemma WalkingStep(
    side: Side, limit: Option<int>, listing: seq<Level>, quantity: int,
    rest: seq<Level>, left: Depth, fills: seq<Level>, remaining: int)
    requires Walking(side, limit, listing, quantity, rest, left, fills, remaining)
    requires rest != [] && remaining > 0 && Reaches(side, limit, rest[0].price)
    ensures rest[0].price in left && left[rest[0].price] == rest[0].quantity
    ensures var p, taken := rest[0].price, Min(remaining, rest[0].quantity);
      var reduced := left[p := rest[0].quantity - taken];
      Walking(side, limit, listing, quantity, TopReduced(rest, taken),
              if rest[0].quantity - taken <= 0 then reduced - {p} else reduced,
              fills + [Level(p, taken)], remaining - taken)
  {
    var p, taken := rest[0].price, Min(remaining, rest[0].quantity);
    FromListingLookup(side, rest, 0);
    WalkUnfolds(side, limit, rest, remaining);
    var w := Walk(side, limit, TopReduced(rest, taken), remaining - taken);
    assert fills + ([Level(p, taken)] + w.fills) == fills + [Level(p, taken)] + w.fills;
  }

  /** The listing after taking units from its first level. */
  function TopReduced(levels: seq<Level>, taken: int): seq<Level>
    requires levels != []
  {
    var left := levels[0].quantity - taken;
    if left <= 0 then levels[1..] else [Level(levels[0].price, left)] + levels[1..]
  }

  /** One step of the walk, on the listing and on the dictionary. */
  lemma WalkUnfolds(side: Side, limit: Option<int>, levels: seq<Level>, quantity: int)
    requires levels != [] && quantity > 0 && Reaches(side, limit, levels[0].price) && Ordered(side, levels)
    ensures var p, taken := levels[0].price, Min(quantity, levels[0].quantity);
      var next, left := TopReduced(levels, taken), levels[0].quantity - taken;
      var w := Walk(side, limit, next, quantity - taken);
      && Walk(side, limit, levels, quantity) == Sweep([Level(p, taken)] + w.fills, w.rest, w.remaining)
      && Ordered(side, next)
      && FromListing(next) ==
           if left <= 0 then FromListing(levels)[p := left] - {p} else FromListing(levels)[p := left]
  {
    var p, tail := levels[0].price, levels[1..];
    var changed := [Level(p, levels[0].quantity - Min(quantity, levels[0].quantity))] + tail;
    assert changed[1..] == tail;
    KeysAbove(side, tail, Rank(side, p));
  }
}
