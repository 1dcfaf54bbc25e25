/** Pricing a fill from the trades it made on the book. */
module Execution {
  import opened Market
  import opened Rounding
  import opened Ladder
  import opened OrderBook
  import opened BookLaws
  import opened TradeTape

  /** Volume-weighted average price of the trades, to four places. */
  function FillVwap(ticks: seq<TradeTick>): real
    requires Volume(ticks) != 0
  {
    QuantizePrice(Notional(ticks) / Volume(ticks) as real)
  }

  /** The broker's markup, in basis points and against the client; None when the broker has none. */
  function MarkedUp(price: real, side: Side, markupBps: Option<real>): real {
    if markupBps.None? then price
    else QuantizePrice(Adjusted(price, side, markupBps.value))
  }

  function Adjusted(price: real, side: Side, markup: real): real {
    var direction := if side.Buy? then 1.0 else -1.0;
    price * (1.0 + direction * markup / 10000.0)
  }

  /** What the trades of a sweep are priced at, times the units filled, is the money of the
      fills to within 0.00005 a unit: the price is their volume-weighted average. */
  lemma FillVwapIsAverage(instrument: string, tickSize: PositiveReal, side: Side, timestamp: int, fills: seq<Level>)
    requires Units(fills) != 0
    ensures var ticks := Ticks(instrument, tickSize, side, timestamp, fills);
      Volume(ticks) != 0 && Averages(FillVwap(ticks), tickSize, fills)
  {
    var ticks := Ticks(instrument, tickSize, side, timestamp, fills);
    TradeTotals(instrument, tickSize, side, timestamp, fills);
    AverageOf(tickSize, fills, Notional(ticks), Volume(ticks));
  }

  lemma AverageOf(tickSize: PositiveReal, fills: seq<Level>, notional: real, volume: int)
    requires volume == Units(fills) && volume != 0 && notional == PriceOf(tickSize, Value(fills))
    ensures Averages(QuantizePrice(notional / volume as real), tickSize, fills)
  {
    QuantizedAverage(notional, volume as real);
  }

  /** The fills' units at this price are worth their value in price units, to within 0.00005 a unit. */
  predicate Averages(price: real, tickSize: PositiveReal, fills: seq<Level>) {
    Worth(Units(fills) as real, price, Value(fills) as real * tickSize)
  }

  /** The price after a markup: that many ten-thousandths of the price, added for a buy and
      taken off for a sell, to within 0.00005. */
  predicate MarksUp(marked: real, price: real, side: Side, markup: real) {
    Abs(marked - (if side.Buy? then price + price * markup / 10000.0 else price - price * markup / 10000.0)) <= 0.00005
  }

  lemma MarkupIsBps(price: real, side: Side, markup: real)
    ensures MarksUp(MarkedUp(price, side, Some(markup)), price, side, markup)
  {
    QuantizeNear(Adjusted(price, side, markup));
    AdjustedIs(price, side, markup);
  }

  lemma AdjustedIs(price: real, side: Side, markup: real)
    ensures Adjusted(price, side, markup) ==
            if side.Buy? then price + price * markup / 10000.0 else price - price * markup / 10000.0
  {
    var share := markup / 10000.0;
    assert price * share == price * markup / 10000.0;
    assert price * (1.0 + share) == price + price * share;
    assert price * (1.0 - share) == price - price * share;
    assert Adjusted(price, side, markup) == price * (if side.Buy? then 1.0 + share else 1.0 - share);
  }

  lemma AdjustedAgainstClient(price: real, side: Side, markup: real)
    requires price >= 0.0 && markup >= 0.0
    ensures if side.Buy? then Adjusted(price, side, markup) >= price else Adjusted(price, side, markup) <= price
  {
    var share := markup / 10000.0;
    ProductNotNegative(price, share);
    if side.Buy? {
      assert Adjusted(price, side, markup) == price * (1.0 + share) == price + price * share;
    } else {
      assert Adjusted(price, side, markup) == price * (1.0 - share) == price - price * share;
    }
  }

  /** Tick sizes whose multiples have at most four decimal places. */
  predicate FourPlaces(x: real) {
    x * 10000.0 == (x * 10000.0).Floor as real
  }

  /** Quantizing changes nothing exactly when the price has at most four places. */
  lemma QuantizeFixesIff(x: real)
    ensures QuantizePrice(x) == x <==> FourPlaces(x)
  {
    RoundingFixesIntegers((x * 10000.0).Floor);
  }

  lemma QuantizeMonotone(x: real, y: real)
    requires x <= y
    ensures QuantizePrice(x) <= QuantizePrice(y)
  {
    RoundingMonotone(x * 10000.0, y * 10000.0);
  }

  lemma GridHasFourPlaces(tickSize: PositiveReal, ticks: int)
    requires FourPlaces(tickSize)
    ensures FourPlaces(PriceOf(tickSize, ticks))
  {
    var k := (tickSize * 10000.0).Floor;
    assert PriceOf(tickSize, ticks) * 10000.0 == ticks as real * (tickSize * 10000.0);
    assert ticks as real * k as real == (ticks * k) as real;
    FloorIs(PriceOf(tickSize, ticks) * 10000.0, ticks * k);
  }

  /** The trades' totals are the fills' totals, scaled by the tick. */
  lemma {:induction false} TradeTotals(instrument: string, tickSize: PositiveReal, side: Side, timestamp: int, fills: seq<Level>)
    ensures var ticks := Ticks(instrument, tickSize, side, timestamp, fills);
      Volume(ticks) == Units(fills) && Notional(ticks) == PriceOf(tickSize, Value(fills))
  {
    if fills != [] {
      var ticks, p, q := Ticks(instrument, tickSize, side, timestamp, fills), fills[0].price, fills[0].quantity;
      TradeTotals(instrument, tickSize, side, timestamp, fills[1..]);
      assert ticks[1..] == Ticks(instrument, tickSize, side, timestamp, fills[1..]);
      assert (p * q) as real == p as real * q as real;
      assert PriceOf(tickSize, p) * q as real == (p * q) as real * tickSize;
    }
  }

  lemma {:induction false} ValueBounds(fills: seq<Level>, low: int, high: int)
    requires AllPositive(fills)
    requires forall i :: 0 <= i < |fills| ==> low <= fills[i].price <= high
    ensures low * Units(fills) <= Value(fills) <= high * Units(fills)
  {
    if fills != [] {
      var p, q, units := fills[0].price, fills[0].quantity, Units(fills[1..]);
      ValueBounds(fills[1..], low, high);
      MulMonotone(low, p, q);
      MulMonotone(p, high, q);
      Spread(low, q, units);
      Spread(high, q, units);
    }
  }

  lemma Spread(bound: int, q: int, units: int)
    ensures bound * (q + units) == bound * q + bound * units
  {
  }

  lemma AverageBounds(low: int, high: int, value: int, units: int, tickSize: PositiveReal)
    requires units > 0 && low * units <= value <= high * units
    ensures PriceOf(tickSize, low) <= PriceOf(tickSize, value) / units as real <= PriceOf(tickSize, high)
  {
    var u, average := units as real, PriceOf(tickSize, value) / units as real;
    assert average * u == value as real * tickSize;
    assert (low * units) as real == low as real * u && (high * units) as real == high as real * u;
    ScaleMonotone(low as real * u, value as real, tickSize);
    ScaleMonotone(value as real, high as real * u, tickSize);
    assert low as real * u * tickSize == PriceOf(tickSize, low) * u;
    assert high as real * u * tickSize == PriceOf(tickSize, high) * u;
    ScaleBack(PriceOf(tickSize, low), average, u);
    ScaleBack(average, PriceOf(tickSize, high), u);
  }

  lemma ScaleMonotone(x: real, y: real, t: PositiveReal)
    requires x <= y
    ensures x * t <= y * t
  {
  }

  lemma ScaleBack(x: real, y: real, t: PositiveReal)
    requires x * t <= y * t
    ensures x <= y
  {
  }

  /** When ticks are multiples of 0.0001, rounding to four places cannot push the
      average outside the range of prices actually filled. */
  lemma VwapWithinFills(
      instrument: string, tickSize: PositiveReal, side: Side, timestamp: int, fills: seq<Level>, low: int, high: int)
    requires FourPlaces(tickSize) && fills != [] && AllPositive(fills)
    requires forall i :: 0 <= i < |fills| ==> low <= fills[i].price <= high
    ensures var ticks := Ticks(instrument, tickSize, side, timestamp, fills);
      Volume(ticks) > 0 && PriceOf(tickSize, low) <= FillVwap(ticks) <= PriceOf(tickSize, high)
  {
    var ticks := Ticks(instrument, tickSize, side, timestamp, fills);
    TradeTotals(instrument, tickSize, side, timestamp, fills);
    UnitsNonNegative(fills);
    ValueBounds(fills, low, high);
    AverageBounds(low, high, Value(fills), Units(fills), tickSize);
    var average := Notional(ticks) / Volume(ticks) as real;
    QuantizeMonotone(PriceOf(tickSize, low), average);
    QuantizeMonotone(average, PriceOf(tickSize, high));
    GridHasFourPlaces(tickSize, low);
    GridHasFourPlaces(tickSize, high);
    QuantizeFixesIff(PriceOf(tickSize, low));
    QuantizeFixesIff(PriceOf(tickSize, high));
  }

  /** A limit order that trades is priced, before markup, no worse than its rounded limit. */
  lemma LimitPriceHonoured(instrument: string, b: Book, side: Side, price: real, quantity: nat, timestamp: int)
    requires FourPlaces(b.tickSize) && PositiveBook(b)
    requires Swept(b, side, Some(RoundTicks(b.tickSize, price)), quantity).fills != []
    ensures var limit := RoundTicks(b.tickSize, price);
      var ticks := Ticks(instrument, b.tickSize, side, timestamp, Swept(b, side, Some(limit), quantity).fills);
      && Volume(ticks) > 0
      && (side.Buy? ==> FillVwap(ticks) <= PriceOf(b.tickSize, limit))
      && (side.Sell? ==> FillVwap(ticks) >= PriceOf(b.tickSize, limit))
  {
    var limit := RoundTicks(b.tickSize, price);
    var fills := Swept(b, side, Some(limit), quantity).fills;
    LimitOrderFills(b, side, price, quantity);
    var low, high := PriceRange(fills);
    assert forall i :: 0 <= i < |fills| ==> Reaches(side, Some(limit), fills[i].price);
    if side.Buy? {
      VwapWithinFills(instrument, b.tickSize, side, timestamp, fills, low, limit);
    } else {
      VwapWithinFills(instrument, b.tickSize, side, timestamp, fills, limit, high);
    }
  }

  lemma {:induction false} PriceRange(fills: seq<Level>) returns (low: int, high: int)
    ensures forall i :: 0 <= i < |fills| ==> low <= fills[i].price <= high
  {
    if fills == [] {
      low, high := 0, 0;
    } else {
      var l, h := PriceRange(fills[1..]);
      low, high := Min(l, fills[0].price), Max(h, fills[0].price);
      assert forall i :: 1 <= i < |fills| ==> fills[i] == fills[1..][i - 1];
    }
  }

  /** A markup that is not negative never moves a four-place price in the client's favour. */
  lemma MarkupAgainstClient(price: real, side: Side, markup: real)
    requires FourPlaces(price) && price >= 0.0 && markup >= 0.0
    ensures side.Buy? ==> MarkedUp(price, side, Some(markup)) >= price
    ensures side.Sell? ==> MarkedUp(price, side, Some(markup)) <= price
  {
    AdjustedAgainstClient(price, side, markup);
    QuantizeFixesIff(price);
    if side.Buy? {
      QuantizeMonotone(price, Adjusted(price, side, markup));
    } else {
      QuantizeMonotone(Adjusted(price, side, markup), price);
    }
  }

  function EffectiveLimit(market: bool, limitPrice: Option<real>): Option<real> {
    if market then None else limitPrice
  }

  function LimitTicks(b: Book, limitPrice: Option<real>): Option<int> {
    if limitPrice.None? then None else Some(RoundTicks(b.tickSize, limitPrice.value))
  }

  /** _execute_via_book: trade on the book, then price the trades; the mid if nothing
      traded. A market order ignores any limit price. */
  method ExecuteViaBook(
      book: SimulatedOrderBook, side: Side, market: bool, limitPrice: Option<real>, quantity: real,
      markupBps: Option<real>, now: int)
    returns (price: real, ticks: seq<TradeTick>, ghost average: real)
    requires PositiveBook(book.State())
    modifies book
    ensures PositiveBook(book.State())
    ensures var b, qty := old(book.State()), Truncate(quantity);
      var limit := LimitTicks(b, EffectiveLimit(market, limitPrice));
      && ticks == Ticks(book.instrumentId, b.tickSize, side, now, Swept(b, side, limit, qty).fills)
      && book.State() ==
           (if market || limitPrice.None? then AfterMarketOrder(b, side, qty)
            else AfterLimitOrder(b, side, limitPrice.value, qty))
    ensures ticks == [] ==> price == old(book.mid)
    ensures ticks != [] ==> Volume(ticks) > 0 && price == MarkedUp(FillVwap(ticks), side, markupBps)
    ensures ticks != [] ==>
      var b, qty := old(book.State()), Truncate(quantity);
      && Averages(average, b.tickSize, Swept(b, side, LimitTicks(b, EffectiveLimit(market, limitPrice)), qty).fills)
      && (if markupBps.None? then price == average else MarksUp(price, average, side, markupBps.value))
  {
    average := 0.0;
    var qty := Truncate(quantity);
    SweepIsPriced(
      book.instrumentId, book.State(), side, LimitTicks(book.State(), EffectiveLimit(market, limitPrice)), qty, now);
    OrderKeepsPositive(book.State(), side, EffectiveLimit(market, limitPrice), qty);
    if market || limitPrice.None? {
      ticks := book.ExecuteMarketOrder(side, qty, now);
    } else {
      var resting;
      ticks, resting := book.ExecuteLimitOrder(side, limitPrice.value, qty, now);
    }
    if ticks == [] {
      return book.mid, [], 0.0;
    }
    average := FillVwap(ticks);
    if markupBps.Some? {
      MarkupIsBps(average, side, markupBps.value);
    }
    price := MarkedUp(FillVwap(ticks), side, markupBps);
  }

  /** Every trade is made at a price on offer, for no more than was offered there, and is
      recorded for the taker's side, the book's instrument and the moment of the order. */
  lemma TradesAreOffers(instrument: string, b: Book, side: Side, limit: Option<int>, quantity: int, now: int, i: nat)
    returns (level: int)
    requires PositiveBook(b) && i < |Swept(b, side, limit, quantity).fills|
    ensures var ticks := Ticks(instrument, b.tickSize, side, now, Swept(b, side, limit, quantity).fills);
      var offers := if side.Buy? then b.asks else b.bids;
      && |ticks| == |Swept(b, side, limit, quantity).fills|
      && ticks[i].side == side && ticks[i].instrument == instrument && ticks[i].timestamp == now && !ticks[i].isAmbient
      && level in offers && 0 < ticks[i].quantity <= offers[level] && ticks[i].price == level as real * b.tickSize
  {
    level := Swept(b, side, limit, quantity).fills[i].price;
    FillIsOffer(b, side, limit, quantity, i);
    TickIs(instrument, b.tickSize, side, now, Swept(b, side, limit, quantity).fills, i);
  }

  lemma TickIs(instrument: string, tickSize: PositiveReal, side: Side, now: int, fills: seq<Level>, i: nat)
    requires i < |fills|
    ensures var tick := Ticks(instrument, tickSize, side, now, fills)[i];
      && tick.side == side && tick.instrument == instrument && tick.timestamp == now && !tick.isAmbient
      && tick.quantity == fills[i].quantity && tick.price == fills[i].price as real * tickSize
  {
  }

  lemma FillIsOffer(b: Book, side: Side, limit: Option<int>, quantity: int, i: nat)
    requires PositiveBook(b) && i < |Swept(b, side, limit, quantity).fills|
    ensures var fill, offers := Swept(b, side, limit, quantity).fills[i], if side.Buy? then b.asks else b.bids;
      fill.price in offers && 0 < fill.quantity <= offers[fill.price]
  {
    var offers := if side.Buy? then b.asks else b.bids;
    ListingMembers(side, offers);
    FillsAreLevels(side, limit, Listing(side, offers), quantity);
    SweepKeepsBook(b, side, limit, quantity);
  }

  /** Whatever an order trades on a positive book has positive volume. */
  lemma SweepIsPriced(instrument: string, b: Book, side: Side, limit: Option<int>, quantity: int, now: int)
    requires PositiveBook(b)
    ensures var fills := Swept(b, side, limit, quantity).fills;
      var ticks := Ticks(instrument, b.tickSize, side, now, fills);
      fills != [] ==> Volume(ticks) > 0 && Averages(FillVwap(ticks), b.tickSize, fills)
  {
    var fills := Swept(b, side, limit, quantity).fills;
    SweepKeepsBook(b, side, limit, quantity);
    UnitsNonNegative(fills);
    TradeTotals(instrument, b.tickSize, side, now, fills);
    if fills != [] {
      FillVwapIsAverage(instrument, b.tickSize, side, now, fills);
    }
  }
}
