/** What the order book guarantees, operation by operation and over whole runs. */
module BookLaws {
  import opened Market
  import opened Rounding
  import opened Ladder
  import opened OrderBook

  ghost predicate PositiveBook(b: Book) {
    PositiveDepth(b.bids) && PositiveDepth(b.asks)
  }

  /** Every bid is strictly below every ask. */
  ghost predicate StrictlyUncrossed(b: Book) {
    forall bid, ask :: bid in b.bids && ask in b.asks ==> bid < ask
  }

  // ---------------------------------------------------------------------
  // Market orders
  // ---------------------------------------------------------------------

  /** A market order fills exactly min(quantity, depth), takes that depth from the
      ladder it faces, leaves the other ladder alone and keeps every level positive. */
  lemma MarketOrderFills(b: Book, side: Side, quantity: int)
    requires PositiveBook(b)
    ensures var after, fills := AfterMarketOrder(b, side, quantity), Swept(b, side, None, quantity).fills;
      var depth := TotalDepth(side, Facing(b, side));
      && Units(fills) == Max(0, Min(quantity, depth))
      && TotalDepth(side, Facing(after, side)) == depth - Units(fills)
      && after == WithFacing(b, side, Facing(after, side))
      && Facing(after, side).Keys <= Facing(b, side).Keys
      && PositiveBook(after)
  {
    SweepKeepsBook(b, side, None, quantity);
    var levels := Listing(side, Facing(b, side));
    ListingIsFaithful(side, Facing(b, side));
    WithinUnlimited(side, levels);
    WalkFillsWhatItCan(side, None, levels, quantity);
    WalkConserves(side, None, levels, quantity);
  }

  /** The dictionary left by a sweep lists as the walk's rest; it has no new price and stays positive. */
  lemma SweepKeepsBook(b: Book, side: Side, limit: Option<int>, quantity: int)
    requires PositiveBook(b)
    ensures var after, w := AfterSweep(b, side, limit, quantity), Swept(b, side, limit, quantity);
      && Listing(side, Facing(after, side)) == w.rest
      && Facing(after, side).Keys <= Facing(b, side).Keys
      && PositiveBook(after)
      && AllPositive(w.fills)
  {
    var levels := Listing(side, Facing(b, side));
    var w := Walk(side, limit, levels, quantity);
    ListingIsFaithful(side, Facing(b, side));
    WalkKeepsOrder(side, limit, levels, quantity);
    WalkKeepsPositive(side, limit, levels, quantity);
    WalkStaysOnLadder(side, limit, levels, quantity);
    ListingOfListing(side, w.rest);
    PositiveListing(w.rest);
  }

  lemma {:induction false} PositiveListing(levels: seq<Level>)
    requires AllPositive(levels)
    ensures PositiveDepth(FromListing(levels))
  {
    if levels != [] {
      PositiveListing(levels[1..]);
    }
  }

  /** An order for q1 followed by one for q2 leaves the same book, and trades the
      same units for the same money, as one order for q1 + q2. */
  lemma MarketOrdersCompose(b: Book, side: Side, q1: nat, q2: nat)
    requires PositiveBook(b)
    ensures var between := AfterMarketOrder(b, side, q1);
      && AfterMarketOrder(between, side, q2) == AfterMarketOrder(b, side, q1 + q2)
      && Value(Swept(b, side, None, q1).fills) + Value(Swept(between, side, None, q2).fills)
           == Value(Swept(b, side, None, q1 + q2).fills)
      && Units(Swept(b, side, None, q1).fills) + Units(Swept(between, side, None, q2).fills)
           == Units(Swept(b, side, None, q1 + q2).fills)
  {
    var levels := Listing(side, Facing(b, side));
    ListingIsFaithful(side, Facing(b, side));
    SweepKeepsBook(b, side, None, q1);
    WalkComposes(side, None, levels, q1, q2);
  }

  /** The market order is the cheapest way for a buyer, and the dearest for a
      seller, of trading that many units against the ladder. */
  lemma MarketOrderIsOptimal(b: Book, side: Side, quantity: int, choice: Depth)
    requires PositiveBook(b)
    requires choice.Keys == Facing(b, side).Keys
    requires forall p :: p in choice ==> 0 <= choice[p] <= Facing(b, side)[p]
    requires TotalDepth(side, choice) == Units(Swept(b, side, None, quantity).fills)
    ensures var paid, other := Value(Swept(b, side, None, quantity).fills), Value(Listing(side, choice));
      if side.Buy? then paid <= other else paid >= other
  {
    GreedyIsOptimal(side, None, Facing(b, side), quantity, choice);
  }

  // ---------------------------------------------------------------------
  // Limit orders
  // ---------------------------------------------------------------------

  /** A limit order fills or rests every unit, and never fills outside its rounded limit. */
  lemma LimitOrderFills(b: Book, side: Side, price: real, quantity: nat)
    requires PositiveBook(b)
    ensures var limit := RoundTicks(b.tickSize, price);
      var w := Swept(b, side, Some(limit), quantity);
      && Units(w.fills) + w.remaining == quantity
      && 0 <= w.remaining
      && AllPositive(w.fills) && AllWithin(side, Some(limit), w.fills)
  {
    var limit, levels := Some(RoundTicks(b.tickSize, price)), Listing(side, Facing(b, side));
    ListingIsFaithful(side, Facing(b, side));
    SweepKeepsBook(b, side, limit, quantity);
    WalkConserves(side, limit, levels, quantity);
    WalkFillsWhatItCan(side, limit, levels, quantity);
    WalkRespectsLimit(side, limit, levels, quantity);
  }

  /** Adding liquidity raises its side's depth by the quantity. */
  lemma AddedDepth(side: Side, book: Depth, price: int, quantity: int)
    ensures TotalDepth(side, Added(book, price, quantity)) == TotalDepth(side, book) + quantity
  {
    var added := Added(book, price, quantity);
    DepthWithout(side, added, price);
    if price in book {
      DepthWithout(side, book, price);
      assert added - {price} == book - {price};
    } else {
      assert added - {price} == book;
    }
  }

  /** The side an order rests on. */
  function Own(b: Book, side: Side): Depth {
    if side.Buy? then b.bids else b.asks
  }

  /** A limit order takes its fills from the facing ladder and puts the unfilled rest,
      nothing else, on its own: all of it at the rounded limit. */
  lemma LimitOrderMovesDepth(b: Book, side: Side, price: real, quantity: nat)
    requires PositiveBook(b)
    ensures var limit := RoundTicks(b.tickSize, price);
      var w, after := Swept(b, side, Some(limit), quantity), AfterLimitOrder(b, side, price, quantity);
      && TotalDepth(side, Facing(after, side)) == TotalDepth(side, Facing(b, side)) - Units(w.fills)
      && TotalDepth(side, Own(after, side)) == TotalDepth(side, Own(b, side)) + quantity - Units(w.fills)
      && (forall p :: p != limit ==> (p in Own(after, side) <==> p in Own(b, side)))
      && (forall p :: p != limit && p in Own(b, side) ==> Own(after, side)[p] == Own(b, side)[p])
  {
    var limit := RoundTicks(b.tickSize, price);
    var w := Swept(b, side, Some(limit), quantity);
    LimitOrderFills(b, side, price, quantity);
    SweepKeepsBook(b, side, Some(limit), quantity);
    WalkConserves(side, Some(limit), Listing(side, Facing(b, side)), quantity);
    RoundingKeepsTicks(b.tickSize, limit);
    AddedDepth(side, Own(b, side), limit, w.remaining);
  }

  /** A sweep that leaves a remainder has cleared every level up to its limit. */
  lemma SweepClearsToLimit(b: Book, side: Side, limit: int, quantity: int)
    requires Swept(b, side, Some(limit), quantity).remaining > 0
    ensures forall p :: p in Facing(AfterSweep(b, side, Some(limit), quantity), side) ==> Rank(side, limit) < Rank(side, p)
  {
    var levels := Listing(side, Facing(b, side));
    ListingIsFaithful(side, Facing(b, side));
    WalkExhausts(side, Some(limit), levels, quantity);
    KeysAbove(side, Walk(side, Some(limit), levels, quantity).rest, Rank(side, limit));
  }

  /** Either kind of order leaves every level positive. */
  lemma OrderKeepsPositive(b: Book, side: Side, limitPrice: Option<real>, quantity: int)
    requires PositiveBook(b)
    ensures PositiveBook(
      if limitPrice.None? then AfterMarketOrder(b, side, quantity)
      else AfterLimitOrder(b, side, limitPrice.value, quantity))
  {
    SweepKeepsBook(b, side, if limitPrice.None? then None else Some(RoundTicks(b.tickSize, limitPrice.value)), quantity);
  }

  lemma SweepKeepsUncrossed(b: Book, side: Side, limit: Option<int>, quantity: int)
    requires PositiveBook(b) && StrictlyUncrossed(b)
    ensures StrictlyUncrossed(AfterSweep(b, side, limit, quantity))
  {
    SweepKeepsBook(b, side, limit, quantity);
  }

  /** A limit order keeps a strictly uncrossed book strictly uncrossed. */
  lemma LimitOrderKeepsBookUncrossed(b: Book, side: Side, price: real, quantity: int)
    requires PositiveBook(b) && StrictlyUncrossed(b)
    ensures StrictlyUncrossed(AfterLimitOrder(b, side, price, quantity))
  {
    var limit := RoundTicks(b.tickSize, price);
    var swept, left := AfterSweep(b, side, Some(limit), quantity), Swept(b, side, Some(limit), quantity).remaining;
    SweepKeepsUncrossed(b, side, Some(limit), quantity);
    if left > 0 {
      SweepClearsToLimit(b, side, limit, quantity);
      RoundingKeepsTicks(b.tickSize, limit);
      LiquidityUncrossedIff(swept, side, PriceOf(b.tickSize, limit), left);
    }
  }

  /** Rounding a price that is on the grid gives it back. */
  lemma RoundingKeepsTicks(tickSize: PositiveReal, ticks: int)
    ensures RoundTicks(tickSize, PriceOf(tickSize, ticks)) == ticks
  {
    assert PriceOf(tickSize, ticks) / tickSize == ticks as real;
    RoundingFixesIntegers(ticks);
  }

  /** Resting liquidity is not checked against the other side: it keeps the book
      strictly uncrossed exactly when its rounded price is inside the spread. */
  lemma LiquidityUncrossedIff(b: Book, side: Side, price: real, quantity: int)
    requires StrictlyUncrossed(b)
    ensures var p := RoundTicks(b.tickSize, price);
      StrictlyUncrossed(WithLiquidity(b, side, price, quantity)) <==>
        if side.Buy? then forall ask :: ask in b.asks ==> p < ask else forall bid :: bid in b.bids ==> bid < p
  {
    var p, after := RoundTicks(b.tickSize, price), WithLiquidity(b, side, price, quantity);
    assert if side.Buy? then p in after.bids else p in after.asks;
  }

  /** An ambient order can therefore cross a book that a limit order left uncrossed:
      with mid 100 and one-unit ticks, a buy limit resting at 101 meets an ambient ask at 101. */
  lemma AmbientOrderCanCross()
    ensures var b := Book(1.0, 0.0, 1.0, 1, map[], map[], 100.0);
      var resting := AfterLimitOrder(b, Buy, 101.0, 5);
      StrictlyUncrossed(resting) && !StrictlyUncrossed(WithLiquidity(resting, Sell, resting.mid + 1.0, 1))
  {
    var b := Book(1.0, 0.0, 1.0, 1, map[], map[], 100.0);
    var resting := AfterLimitOrder(b, Buy, 101.0, 5);
    RoundingKeepsTicks(1.0, 101);
    LimitOrderKeepsBookUncrossed(b, Buy, 101.0, 5);
    assert Listing(Buy, b.asks) == [];
    assert 101 in resting.bids;
    assert 101 in WithLiquidity(resting, Sell, 101.0, 1).asks;
  }

  // ---------------------------------------------------------------------
  // Recentring
  // ---------------------------------------------------------------------

  /** The quotes in ticks: the mid in ticks, half a spread either way, rounded. */
  lemma QuotesInTicks(tickSize: PositiveReal, spread: int, mid: real)
    ensures QuoteBid(tickSize, spread, mid) == RoundHalfUp(mid / tickSize - spread as real / 2.0)
    ensures QuoteAsk(tickSize, spread, mid) == RoundHalfUp(mid / tickSize + spread as real / 2.0)
  {
    var m, half := mid / tickSize, spread as real / 2.0;
    assert m * tickSize == mid;
    assert PriceOf(tickSize, spread) / 2.0 == half * tickSize;
    DivideExactly(mid - PriceOf(tickSize, spread) / 2.0, tickSize, m - half);
    DivideExactly(mid + PriceOf(tickSize, spread) / 2.0, tickSize, m + half);
  }

  lemma DivideExactly(x: real, t: PositiveReal, q: real)
    requires q * t == x
    ensures x / t == q
  {
  }

  /** The spread a recentre aims at, in ticks: the mid times the basis points and the
      multiplier, a ten-thousandth each. */
  function ExactSpread(b: Book, mid: real): real {
    mid * b.spreadBps * b.multiplier / 10000.0 / b.tickSize
  }

  lemma SpreadRounds(b: Book, mid: real)
    ensures SpreadTicks(b, mid) == RoundHalfUp(ExactSpread(b, mid))
  {
    SameProduct(mid, b.spreadBps, b.multiplier);
    var exact := mid * b.spreadBps * b.multiplier / 10000.0;
    RoundedFrom(b.tickSize, EffectiveBps(b.spreadBps, b.multiplier), mid, exact);
    assert SpreadTicks(b, mid) == RoundedSpread(b.tickSize, EffectiveBps(b.spreadBps, b.multiplier), mid);
    assert ExactSpread(b, mid) == exact / b.tickSize;
  }

  lemma RoundedFrom(tickSize: PositiveReal, bps: real, mid: real, exact: real)
    requires mid * (bps / 10000.0) == exact
    ensures RoundedSpread(tickSize, bps, mid) == RoundHalfUp(exact / tickSize)
  {
  }

  lemma SameProduct(mid: real, bps: real, multiplier: real)
    ensures mid * (bps * multiplier / 10000.0) == mid * bps * multiplier / 10000.0
  {
    var p := bps * multiplier;
    assert mid * p == mid * bps * multiplier;
    assert mid * (p / 10000.0) == mid * p / 10000.0;
  }

  /** The spread of a recentre is the exact spread rounded to the nearest tick, ties away from zero. */
  lemma SpreadIsBps(b: Book, mid: real)
    ensures NearestTo(SpreadTicks(b, mid), ExactSpread(b, mid))
  {
    SpreadRounds(b, mid);
    RoundsToNearest(ExactSpread(b, mid));
  }

  /** n is the integer nearest to x, and of two equally near the one further from zero. */
  predicate NearestTo(n: int, x: real) {
    Abs(n as real - x) < 0.5 || (Abs(n as real - x) == 0.5 && Abs(n as real) > Abs(x))
  }

  lemma RoundsToNearest(x: real)
    ensures NearestTo(RoundHalfUp(x), x)
  {
    RoundHalfUpIff(x, RoundHalfUp(x));
  }

  /** Two separate half-up roundings give back exactly the rounded spread, unless
      the unrounded quotes are ties on opposite sides of zero, when they are one
      tick too far apart. */
  lemma RecentreSpread(b: Book, mid: real)
    ensures var spread, gap := SpreadTicks(b, mid), NewBestAsk(b, mid) - NewBestBid(b, mid);
      var low, high := mid / b.tickSize - spread as real / 2.0, mid / b.tickSize + spread as real / 2.0;
      && (gap == spread <==> !(IsTie(low) && ((low < 0.0 <= high) || (high < 0.0 <= low))))
      && (gap == spread || gap == (if spread > 0 then spread + 1 else spread - 1))
  {
    var spread := SpreadTicks(b, mid);
    QuotesInTicks(b.tickSize, spread, mid);
    var low, high := mid / b.tickSize - spread as real / 2.0, mid / b.tickSize + spread as real / 2.0;
    assert high == low + spread as real;
    RoundHalfUpShift(low, spread);
  }

  /** Old levels inside the window keep their quantity; the only new level is the best
      price, at base depth. */
  ghost predicate KeptOrRefilled(before: Depth, after: Depth, low: int, high: int, best: int, depth: int) {
    && (forall p :: p in before && low <= p <= high ==> p in after && after[p] == before[p])
    && (forall p :: p in after && p !in before ==> p == best && after[p] == depth)
  }

  /** A recentred book quotes exactly the new best prices, keeps the levels within 20
      ticks of the best, at most 21 a side, and stays positive. */
  lemma RecentredLadders(b: Book, mid: real)
    ensures var after, bid, ask := Recentred(b, mid), NewBestBid(b, mid), NewBestAsk(b, mid);
      && bid in after.bids && ask in after.asks
      && (forall p :: p in after.bids ==> bid - 20 <= p <= bid)
      && (forall p :: p in after.asks ==> ask <= p <= ask + 20)
      && |after.bids| <= 21 && |after.asks| <= 21
      && KeptOrRefilled(b.bids, after.bids, bid - 20, bid, bid, b.baseDepth)
      && KeptOrRefilled(b.asks, after.asks, ask, ask + 20, ask, b.baseDepth)
      && (PositiveBook(b) && b.baseDepth > 0 ==> PositiveBook(after))
  {
    var after, bid, ask := Recentred(b, mid), NewBestBid(b, mid), NewBestAsk(b, mid);
    WindowSize(after.bids.Keys, bid - DEPTH_TICKS, bid + 1);
    WindowSize(after.asks.Keys, ask, ask + DEPTH_TICKS + 1);
  }

  lemma {:induction false} WindowSize(prices: set<int>, low: int, high: int)
    requires low <= high && forall p :: p in prices ==> low <= p < high
    ensures |prices| <= high - low
    decreases high - low
  {
    if low == high {
      assert prices == {};
    } else {
      WindowSize(prices - {high - 1}, low, high - 1);
      assert prices <= (prices - {high - 1}) + {high - 1};
      assert |prices| <= |prices - {high - 1}| + 1;
    }
  }

  /** The best bid and the best ask. */
  predicate BestQuotes(b: Book, bid: int, ask: int) {
    && bid in b.bids && (forall p :: p in b.bids ==> p <= bid)
    && ask in b.asks && (forall p :: p in b.asks ==> ask <= p)
  }

  /** The best prices of a recentred book lie half the exact spread below and above the mid,
      to within three quarters of a tick: half for their own rounding and a quarter for the
      spread's. The gap between them is the exact spread to within half a tick, or one and a
      half when the quotes rounded are ties on opposite sides of zero. All in ticks. */
  lemma RecentredAroundMid(b: Book, mid: real) returns (bid: int, ask: int)
    ensures BestQuotes(Recentred(b, mid), bid, ask) && Recentred(b, mid).mid == mid
    ensures Around(bid, ask, SpreadTicks(b, mid), mid / b.tickSize, ExactSpread(b, mid))
  {
    bid, ask := NewBestBid(b, mid), NewBestAsk(b, mid);
    RecentredLadders(b, mid);
    SpreadRounds(b, mid);
    QuotesAround(b, mid, ExactSpread(b, mid));
  }

  predicate Around(bid: int, ask: int, spread: int, centre: real, exact: real) {
    && Abs(bid as real - (centre - exact / 2.0)) <= 0.75
    && Abs(ask as real - (centre + exact / 2.0)) <= 0.75
    && Abs((ask - bid) as real - exact) <= (if CrossedTie(centre - spread as real / 2.0, spread) == 0 then 0.5 else 1.5)
  }

  lemma QuotesAround(b: Book, mid: real, exact: real)
    requires SpreadTicks(b, mid) == RoundHalfUp(exact)
    ensures Around(NewBestBid(b, mid), NewBestAsk(b, mid), SpreadTicks(b, mid), mid / b.tickSize, exact)
  {
    QuotesInTicks(b.tickSize, SpreadTicks(b, mid), mid);
    RoundedAround(mid / b.tickSize, exact);
  }

  lemma RoundedAround(centre: real, exact: real)
    ensures var spread := RoundHalfUp(exact);
      Around(RoundHalfUp(centre - spread as real / 2.0), RoundHalfUp(centre + spread as real / 2.0), spread, centre, exact)
  {
    var spread := RoundHalfUp(exact);
    var low := centre - spread as real / 2.0;
    assert low + spread as real == centre + spread as real / 2.0;
    RoundHalfUpShift(low, spread);
  }

  /** A recentre leaves the book uncrossed exactly when the rounded spread is not
      negative, and strictly uncrossed exactly when it is at least one tick. */
  lemma RecentreUncrossedIff(b: Book, mid: real)
    ensures var after, spread := Recentred(b, mid), SpreadTicks(b, mid);
      && (spread >= 0 <==> forall bid, ask :: bid in after.bids && ask in after.asks ==> bid <= ask)
      && (spread >= 1 <==> StrictlyUncrossed(after))
  {
    RecentredLadders(b, mid);
    RecentreSpread(b, mid);
  }

  // ---------------------------------------------------------------------
  // Runs in which the sides keep to their sides of the mid
  // ---------------------------------------------------------------------

  datatype Op =
    | Recentre(mid: real)
    | Widen(multiplier: real)
    | Rest(side: Side, offset: real, quantity: int)
    | Take(side: Side, quantity: int)
    | Limit(side: Side, price: real, quantity: int)

  function Apply(b: Book, op: Op): Book {
    match op
    case Recentre(mid) => Recentred(b, mid)
    case Widen(m) => b.(multiplier := if m < 0.5 then 0.5 else m)
    case Rest(side, offset, quantity) =>
      WithLiquidity(b, side, if side.Buy? then b.mid - offset else b.mid + offset, quantity)
    case Take(side, quantity) => AfterMarketOrder(b, side, quantity)
    case Limit(side, price, quantity) => AfterLimitOrder(b, side, price, quantity)
  }

  /** A limit order that is filled, or whose rounded limit is on its own side of the rounded mid. */
  predicate KeepsBehindMid(b: Book, side: Side, price: real, quantity: int) {
    var limit, mid := RoundTicks(b.tickSize, price), RoundTicks(b.tickSize, b.mid);
    Swept(b, side, Some(limit), quantity).remaining <= 0 || (if side.Buy? then limit <= mid else mid <= limit)
  }

  /** What keeps the sides apart: recentres have a spread that is not negative, ambient
      orders add units away from the mid, market orders are unrestricted, and limit orders
      do not rest beyond the mid. */
  predicate Allowed(b: Book, op: Op) {
    match op
    case Recentre(mid) => SpreadTicks(b, mid) >= 0
    case Rest(side, offset, quantity) => offset >= 0.0 && quantity > 0
    case Limit(side, price, quantity) => KeepsBehindMid(b, side, price, quantity)
    case _ => true
  }

  function Run(b: Book, ops: seq<Op>): Book
    decreases |ops|
  {
    if ops == [] then b else Run(Apply(b, ops[0]), ops[1..])
  }

  predicate AllowedRun(b: Book, ops: seq<Op>)
    decreases |ops|
  {
    ops != [] ==> Allowed(b, ops[0]) && AllowedRun(Apply(b, ops[0]), ops[1..])
  }

  /** Bids at or below the rounded mid, asks at or above it. */
  ghost predicate Separated(b: Book) {
    SeparatedAt(b, RoundTicks(b.tickSize, b.mid))
  }

  ghost predicate SeparatedAt(b: Book, mid: int) {
    (forall p :: p in b.bids ==> p <= mid) && (forall p :: p in b.asks ==> mid <= p)
  }

  ghost predicate Sound(b: Book) {
    Separated(b) && PositiveBook(b) && b.baseDepth > 0
  }

  lemma RoundTicksMonotone(tickSize: PositiveReal, x: real, y: real)
    requires x <= y
    ensures RoundTicks(tickSize, x) <= RoundTicks(tickSize, y)
  {
    assert x / tickSize <= y / tickSize;
    RoundingMonotone(x / tickSize, y / tickSize);
  }

  /** Whether a recentre separates the book around the new mid depends only on the
      sign of the rounded spread. */
  lemma RecentreSeparatesIff(b: Book, mid: real)
    ensures Separated(Recentred(b, mid)) <==> SpreadTicks(b, mid) >= 0
  {
    RecentredLadders(b, mid);
    RecentreSpread(b, mid);
    var spread := SpreadTicks(b, mid);
    if spread >= 0 {
      QuotesInTicks(b.tickSize, spread, mid);
      var m, half := mid / b.tickSize, spread as real / 2.0;
      RoundingMonotone(m - half, m);
      RoundingMonotone(m, m + half);
    }
  }

  /** The sign of the rounded spread, read off the mid, the basis points and the multiplier. */
  lemma SpreadSignIff(b: Book, mid: real)
    ensures SpreadTicks(b, mid) >= 0 <==> ExactSpread(b, mid) > -0.5
    ensures SpreadTicks(b, mid) >= 1 <==> ExactSpread(b, mid) >= 0.5
  {
    SpreadIsBps(b, mid);
  }

  /** Prices and spreads that are not negative give a spread that is not negative. */
  lemma SpreadNotNegative(b: Book, mid: real)
    requires mid >= 0.0 && b.spreadBps >= 0.0 && b.multiplier >= 0.0
    ensures SpreadTicks(b, mid) >= 0
  {
    var bps := EffectiveBps(b.spreadBps, b.multiplier);
    ProductNotNegative(b.spreadBps, b.multiplier);
    ProductNotNegative(mid, bps / 10000.0);
    RoundTicksMonotone(b.tickSize, 0.0, mid * (bps / 10000.0));
    assert 0.0 / b.tickSize == 0.0;
    RoundingFixesIntegers(0);
  }

  lemma ProductNotNegative(x: real, y: real)
    requires x >= 0.0 && y >= 0.0
    ensures x * y >= 0.0
  {
  }

  /** On a sound book a limit order keeps the sides on their sides of the mid exactly when
      nothing of it is left to rest or it rests on its own side. */
  lemma LimitSeparatesIff(b: Book, side: Side, price: real, quantity: int)
    requires Sound(b)
    ensures Separated(AfterLimitOrder(b, side, price, quantity)) <==> KeepsBehindMid(b, side, price, quantity)
  {
    LimitOrderRests(b, side, price, quantity);
    RestedSeparatesIff(b, side, RoundTicks(b.tickSize, price), quantity, RoundTicks(b.tickSize, b.mid));
  }

  /** A limit order at its limit in ticks. */
  function RestedAt(b: Book, side: Side, limit: int, quantity: int): Book {
    var swept, left := AfterSweep(b, side, Some(limit), quantity), Swept(b, side, Some(limit), quantity).remaining;
    if left > 0 then WithLevel(swept, side, limit, left) else swept
  }

  lemma LimitOrderRests(b: Book, side: Side, price: real, quantity: int)
    ensures AfterLimitOrder(b, side, price, quantity) == RestedAt(b, side, RoundTicks(b.tickSize, price), quantity)
  {
    RoundingKeepsTicks(b.tickSize, RoundTicks(b.tickSize, price));
  }

  lemma RestedSeparatesIff(b: Book, side: Side, limit: int, quantity: int, mid: int)
    requires PositiveBook(b) && SeparatedAt(b, mid)
    ensures var after, left := RestedAt(b, side, limit, quantity), Swept(b, side, Some(limit), quantity).remaining;
      && after.tickSize == b.tickSize && after.mid == b.mid
      && (SeparatedAt(after, mid) <==> left <= 0 || (if side.Buy? then limit <= mid else mid <= limit))
  {
    SweepKeepsBook(b, side, Some(limit), quantity);
    RestSeparatesIff(
      AfterSweep(b, side, Some(limit), quantity), side, limit, Swept(b, side, Some(limit), quantity).remaining, mid);
  }

  lemma RestSeparatesIff(b: Book, side: Side, limit: int, quantity: int, mid: int)
    requires SeparatedAt(b, mid)
    ensures SeparatedAt(WithLevel(b, side, limit, quantity), mid) <==> if side.Buy? then limit <= mid else mid <= limit
  {
    var after := WithLevel(b, side, limit, quantity);
    assert if side.Buy? then limit in after.bids else limit in after.asks;
  }

  lemma StepKeepsSound(b: Book, op: Op)
    requires Sound(b) && Allowed(b, op)
    ensures Sound(Apply(b, op))
  {
    match op
    case Recentre(mid) =>
      RecentreSeparatesIff(b, mid);
      RecentredLadders(b, mid);
    case Widen(m) =>
    case Rest(side, offset, quantity) =>
      RoundTicksMonotone(b.tickSize, b.mid - offset, b.mid);
      RoundTicksMonotone(b.tickSize, b.mid, b.mid + offset);
    case Take(side, quantity) =>
      MarketOrderFills(b, side, quantity);
    case Limit(side, price, quantity) =>
      LimitSeparatesIff(b, side, price, quantity);
      OrderKeepsPositive(b, side, Some(price), quantity);
  }

  /** Over every run, bids stay at or below the rounded mid, asks at or above it,
      and every level stays positive. */
  lemma {:induction false} RunKeepsSound(b: Book, ops: seq<Op>)
    requires Sound(b) && AllowedRun(b, ops)
    ensures Sound(Run(b, ops))
    decreases |ops|
  {
    if ops != [] {
      StepKeepsSound(b, ops[0]);
      RunKeepsSound(Apply(b, ops[0]), ops[1..]);
    }
  }

  // ---------------------------------------------------------------------
  // Runs in which the book stays strictly uncrossed
  // ---------------------------------------------------------------------

  /** What keeps the book strictly uncrossed: recentres have a spread of at least one
      tick and ambient orders add units inside the spread; market and limit orders
      are unrestricted. */
  ghost predicate Orderly(b: Book, op: Op) {
    match op
    case Recentre(mid) => SpreadTicks(b, mid) >= 1
    case Rest(side, offset, quantity) =>
      var p := RoundTicks(b.tickSize, if side.Buy? then b.mid - offset else b.mid + offset);
      quantity > 0 && if side.Buy? then forall ask :: ask in b.asks ==> p < ask else forall bid :: bid in b.bids ==> bid < p
    case _ => true
  }

  ghost predicate OrderlyRun(b: Book, ops: seq<Op>)
    decreases |ops|
  {
    ops != [] ==> Orderly(b, ops[0]) && OrderlyRun(Apply(b, ops[0]), ops[1..])
  }

  ghost predicate Tidy(b: Book) {
    StrictlyUncrossed(b) && PositiveBook(b) && b.baseDepth > 0
  }

  lemma RecentreKeepsTidy(b: Book, mid: real)
    requires Tidy(b) && SpreadTicks(b, mid) >= 1
    ensures Tidy(Recentred(b, mid))
  {
    RecentreUncrossedIff(b, mid);
    RecentredLadders(b, mid);
  }

  lemma RestKeepsTidy(b: Book, side: Side, price: real, quantity: int)
    requires Tidy(b) && quantity > 0
    requires var p := RoundTicks(b.tickSize, price);
      if side.Buy? then forall ask :: ask in b.asks ==> p < ask else forall bid :: bid in b.bids ==> bid < p
    ensures Tidy(WithLiquidity(b, side, price, quantity))
  {
    LiquidityUncrossedIff(b, side, price, quantity);
    LevelKeepsPositive(b, side, RoundTicks(b.tickSize, price), quantity);
  }

  lemma LevelKeepsPositive(b: Book, side: Side, ticks: int, quantity: int)
    requires PositiveBook(b) && quantity > 0
    ensures PositiveBook(WithLevel(b, side, ticks, quantity))
  {
  }

  lemma OrderKeepsTidy(b: Book, side: Side, limitPrice: Option<real>, quantity: int)
    requires Tidy(b)
    ensures Tidy(
      if limitPrice.None? then AfterMarketOrder(b, side, quantity)
      else AfterLimitOrder(b, side, limitPrice.value, quantity))
  {
    OrderKeepsPositive(b, side, limitPrice, quantity);
    if limitPrice.None? {
      SweepKeepsUncrossed(b, side, None, quantity);
    } else {
      LimitOrderKeepsBookUncrossed(b, side, limitPrice.value, quantity);
    }
  }

  lemma StepKeepsTidy(b: Book, op: Op)
    requires Tidy(b) && Orderly(b, op)
    ensures Tidy(Apply(b, op))
  {
    match op
    case Recentre(mid) =>
      RecentreKeepsTidy(b, mid);
    case Widen(m) =>
    case Rest(side, offset, quantity) =>
      RestKeepsTidy(b, side, if side.Buy? then b.mid - offset else b.mid + offset, quantity);
    case Take(side, quantity) =>
      OrderKeepsTidy(b, side, None, quantity);
    case Limit(side, price, quantity) =>
      OrderKeepsTidy(b, side, Some(price), quantity);
  }

  /** Over every such run, limit orders included, the book stays strictly uncrossed and positive. */
  lemma {:induction false} RunKeepsTidy(b: Book, ops: seq<Op>)
    requires Tidy(b) && OrderlyRun(b, ops)
    ensures Tidy(Run(b, ops))
    decreases |ops|
  {
    if ops != [] {
      StepKeepsTidy(b, ops[0]);
      RunKeepsTidy(Apply(b, ops[0]), ops[1..]);
    }
  }
}
