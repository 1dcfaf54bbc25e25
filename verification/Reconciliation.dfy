/** Two independent views of the same fills: the fund administrator's positions, cash
    and NAV, and the broker's end-of-day positions. */
module Reconciliation {
  import opened Market
  import opened Rounding
  import opened TradeTape

  datatype Status = Acknowledged | PartiallyFilled | Filled | Rejected | Cancelled

  datatype Fill = Fill(quantity: real, price: real)

  datatype Order = Order(instrument: string, side: string, status: Status, fills: seq<Fill>)

  function FilledQuantity(fills: seq<Fill>): real {
    if fills == [] then 0.0 else fills[0].quantity + FilledQuantity(fills[1..])
  }

  function FilledValue(fills: seq<Fill>): real {
    if fills == [] then 0.0 else fills[0].price * fills[0].quantity + FilledValue(fills[1..])
  }

  /** avg_fill_price: to four places; None without fills or with a total of zero. */
  function AvgFillPrice(o: Order): Option<real> {
    var quantity := FilledQuantity(o.fills);
    if o.fills == [] || quantity == 0.0 then None else Some(QuantizePrice(FilledValue(o.fills) / quantity))
  }

  /** One more fill adds its quantity and its money. */
  lemma {:induction false} FilledTotals(fills: seq<Fill>, fill: Fill)
    ensures FilledQuantity(fills + [fill]) == FilledQuantity(fills) + fill.quantity
    ensures FilledValue(fills + [fill]) == FilledValue(fills) + fill.price * fill.quantity
  {
    var all := fills + [fill];
    if fills == [] {
      assert all == [fill] && all[1..] == [];
    } else {
      FilledTotals(fills[1..], fill);
      assert all[1..] == fills[1..] + [fill] && all[0] == fills[0];
    }
  }

  predicate Counted(o: Order) {
    o.status.Filled? || o.status.PartiallyFilled?
  }

  /** Every side but "sell" adds to a position. */
  function SignedQuantity(o: Order): real {
    if o.side == "sell" then -FilledQuantity(o.fills) else FilledQuantity(o.fills)
  }

  // ---------------------------------------------------------------------
  // Insertion-ordered dictionaries
  // ---------------------------------------------------------------------

  datatype Position = Position(instrument: string, quantity: real)

  /** positions[instrument] = positions.get(instrument, 0) + quantity */
  function AddTo(positions: seq<Position>, instrument: string, quantity: real): seq<Position> {
    if positions == [] then [Position(instrument, 0.0 + quantity)]
    else if positions[0].instrument == instrument then
      [Position(instrument, positions[0].quantity + quantity)] + positions[1..]
    else [positions[0]] + AddTo(positions[1..], instrument, quantity)
  }

  function Get(positions: seq<Position>, instrument: string): real {
    if positions == [] then 0.0
    else if positions[0].instrument == instrument then positions[0].quantity
    else Get(positions[1..], instrument)
  }

  function Instruments(positions: seq<Position>): set<string> {
    if positions == [] then {} else {positions[0].instrument} + Instruments(positions[1..])
  }

  /** No instrument appears twice. */
  predicate Unique(positions: seq<Position>) {
    positions != [] ==> positions[0].instrument !in Instruments(positions[1..]) && Unique(positions[1..])
  }

  lemma {:induction false} AddToIsUpdate(positions: seq<Position>, instrument: string, quantity: real, other: string)
    requires Unique(positions)
    ensures var p := AddTo(positions, instrument, quantity);
      && Unique(p) && Instruments(p) == Instruments(positions) + {instrument}
      && Get(p, other) == Get(positions, other) + if other == instrument then quantity else 0.0
  {
    if positions != [] && positions[0].instrument != instrument {
      AddToIsUpdate(positions[1..], instrument, quantity, other);
      assert AddTo(positions, instrument, quantity)[1..] == AddTo(positions[1..], instrument, quantity);
    } else if positions != [] {
      assert AddTo(positions, instrument, quantity)[1..] == positions[1..];
    } else {
      assert AddTo(positions, instrument, quantity)[1..] == [];
    }
  }

  // ---------------------------------------------------------------------
  // Positions
  // ---------------------------------------------------------------------

  /** The dictionary either loop builds. */
  function Positions(orders: seq<Order>): seq<Position> {
    if orders == [] then []
    else
      var before, o := Positions(orders[..|orders| - 1]), orders[|orders| - 1];
      if Counted(o) then AddTo(before, o.instrument, SignedQuantity(o)) else before
  }

  /** Net signed quantity of the counted orders in one instrument. */
  function Net(orders: seq<Order>, instrument: string): real {
    if orders == [] then 0.0
    else
      (if Counted(orders[0]) && orders[0].instrument == instrument then SignedQuantity(orders[0]) else 0.0)
      + Net(orders[1..], instrument)
  }

  lemma {:induction false} NetAppend(orders: seq<Order>, o: Order, instrument: string)
    ensures Net(orders + [o], instrument) ==
            Net(orders, instrument) + if Counted(o) && o.instrument == instrument then SignedQuantity(o) else 0.0
  {
    if orders == [] {
      assert orders + [o] == [o] && [o][1..] == [];
    } else {
      NetAppend(orders[1..], o, instrument);
      assert (orders + [o])[1..] == orders[1..] + [o];
    }
  }

  /** Each position is the net of the counted orders, and the instruments are exactly
      those with a counted order. */
  lemma {:induction false} PositionsAreNets(orders: seq<Order>, instrument: string)
    ensures Unique(Positions(orders))
    ensures Get(Positions(orders), instrument) == Net(orders, instrument)
    ensures instrument in Instruments(Positions(orders)) <==> Traded(orders, instrument)
  {
    if orders != [] {
      var before, o := orders[..|orders| - 1], orders[|orders| - 1];
      assert before + [o] == orders;
      PositionsAreNets(before, instrument);
      assert Get(Positions(orders), instrument) == Net(orders, instrument) by {
        NetAppend(before, o, instrument);
        AddToIsUpdate(Positions(before), o.instrument, SignedQuantity(o), instrument);
      }
      assert Unique(Positions(orders)) by {
        AddToIsUpdate(Positions(before), o.instrument, SignedQuantity(o), instrument);
      }
      InstrumentsAppend(before, o, instrument);
    }
  }

  /** Some counted order is in the instrument. */
  ghost predicate Traded(orders: seq<Order>, instrument: string) {
    exists k :: 0 <= k < |orders| && Counted(orders[k]) && orders[k].instrument == instrument
  }

  lemma TradedAppend(orders: seq<Order>, o: Order, instrument: string)
    ensures Traded(orders + [o], instrument) <==> Traded(orders, instrument) || (Counted(o) && o.instrument == instrument)
  {
    var all := orders + [o];
    assert all[|orders|] == o;
    if k :| 0 <= k < |orders| && Counted(orders[k]) && orders[k].instrument == instrument {
      assert all[k] == orders[k];
    }
  }

  lemma InstrumentsAppend(orders: seq<Order>, o: Order, instrument: string)
    requires Unique(Positions(orders)) && (instrument in Instruments(Positions(orders)) <==> Traded(orders, instrument))
    ensures instrument in Instruments(Positions(orders + [o])) <==> Traded(orders + [o], instrument)
  {
    TradedAppend(orders, o, instrument);
    assert (orders + [o])[..|orders|] == orders;
    AddToIsUpdate(Positions(orders), o.instrument, SignedQuantity(o), instrument);
  }

  /** The administrator's deliberate mismatches: every position may be moved by one to five units. */
  ghost predicate Mismatched(clean: seq<Position>, reported: seq<Position>) {
    && |clean| == |reported|
    && forall k :: 0 <= k < |clean| ==>
         reported[k].instrument == clean[k].instrument && -5.0 <= reported[k].quantity - clean[k].quantity <= 5.0
  }

  lemma {:induction false} MismatchIsSmall(clean: seq<Position>, reported: seq<Position>, instrument: string)
    requires Mismatched(clean, reported)
    ensures Instruments(reported) == Instruments(clean)
    ensures Unique(clean) ==> Unique(reported)
    ensures -5.0 <= Get(reported, instrument) - Get(clean, instrument) <= 5.0
  {
    if clean != [] {
      MismatchIsSmall(clean[1..], reported[1..], instrument);
    }
  }

  /** FundAdminService.get_positions. `mismatches` false stands for a run whose draws
      never fall under the mismatch probability. */
  method AdminPositions(orders: seq<Order>, mismatches: bool) returns (positions: seq<Position>)
    ensures Mismatched(Positions(orders), positions)
    ensures !mismatches ==> positions == Positions(orders)
  {
    positions := [];
    for k := 0 to |orders|
      invariant positions == Positions(orders[..k])
    {
      assert orders[..k + 1][..k] == orders[..k];
      var order := orders[k];
      if !Counted(order) {
        continue;
      }
      var qty := FilledQuantity(order.fills);
      if order.side == "sell" {
        qty := -qty;
      }
      positions := AddTo(positions, order.instrument, qty);
    }
    assert orders[..|orders|] == orders;
    ghost var clean := positions;
    for k := 0 to |positions|
      invariant Mismatched(clean, positions)
      invariant forall j :: k <= j < |clean| ==> positions[j] == clean[j]
      invariant !mismatches ==> positions == clean
    {
      var draw: bool := *;
      if mismatches && draw {
        var size :| 1 <= size <= 5;
        var up: bool := *;
        positions := positions[k := positions[k].(quantity := positions[k].quantity + (if up then size else -size) as real)];
      }
    }
  }

  /** The aggregation loop of MockExchangeBrokerAdapter.get_eod_positions. */
  method BrokerPositions(orders: seq<Order>) returns (positions: seq<Position>)
    ensures positions == Positions(orders)
  {
    positions := [];
    for k := 0 to |orders|
      invariant positions == Positions(orders[..k])
    {
      assert orders[..k + 1][..k] == orders[..k];
      if Counted(orders[k]) {
        positions := AddTo(positions, orders[k].instrument, SignedQuantity(orders[k]));
      }
    }
    assert orders[..|orders|] == orders;
  }

  /** For every order list the two views have the same instruments and differ by at most
      five units in each. */
  lemma ViewsReconcile(orders: seq<Order>, admin: seq<Position>, broker: seq<Position>, instrument: string)
    requires Mismatched(Positions(orders), admin) && broker == Positions(orders)
    ensures Instruments(admin) == Instruments(broker)
    ensures -5.0 <= Get(admin, instrument) - Get(broker, instrument) <= 5.0
    ensures Get(broker, instrument) == Net(orders, instrument)
  {
    MismatchIsSmall(broker, admin, instrument);
    PositionsAreNets(orders, instrument);
  }

  // ---------------------------------------------------------------------
  // Cash and NAV
  // ---------------------------------------------------------------------

  function PriceIn(prices: map<string, real>, instrument: string): real {
    if instrument in prices then prices[instrument] else 0.0
  }

  function MarketValue(positions: seq<Position>, prices: map<string, real>): real {
    if positions == [] then 0.0
    else positions[0].quantity * PriceIn(prices, positions[0].instrument) + MarketValue(positions[1..], prices)
  }

  /** One order's cash: a buy pays, every other side receives. */
  function CashOf(o: Order): real {
    if !Counted(o) || AvgFillPrice(o).None? then 0.0
    else
      var amount := FilledQuantity(o.fills) * AvgFillPrice(o).value;
      if o.side == "buy" then -amount else amount
  }

  function Cash(orders: seq<Order>): real {
    if orders == [] then 0.0 else Cash(orders[..|orders| - 1]) + CashOf(orders[|orders| - 1])
  }

  /** get_nav from the positions reported */
  function ReportedNav(positions: seq<Position>, orders: seq<Order>, prices: map<string, real>): real {
    MarketValue(positions, prices) + Cash(orders)
  }

  /** get_nav with mismatches off */
  function Nav(orders: seq<Order>, prices: map<string, real>): real {
    ReportedNav(Positions(orders), orders, prices)
  }

  lemma {:induction false} MarketValueOfAdd(
      positions: seq<Position>, instrument: string, quantity: real, prices: map<string, real>)
    ensures MarketValue(AddTo(positions, instrument, quantity), prices)
         == MarketValue(positions, prices) + quantity * PriceIn(prices, instrument)
  {
    var added := AddTo(positions, instrument, quantity);
    if positions == [] {
      assert added[1..] == [];
    } else if positions[0].instrument == instrument {
      assert added[1..] == positions[1..];
      var q, p := positions[0].quantity, PriceIn(prices, instrument);
      assert (q + quantity) * p == q * p + quantity * p;
    } else {
      MarketValueOfAdd(positions[1..], instrument, quantity, prices);
      assert added[1..] == AddTo(positions[1..], instrument, quantity);
    }
  }

  // ---------------------------------------------------------------------
  // NAV with mismatches
  // ---------------------------------------------------------------------

  /** One unit of every instrument held, at its absolute mark. */
  function AbsMarks(positions: seq<Position>, prices: map<string, real>): real {
    if positions == [] then 0.0 else Abs(PriceIn(prices, positions[0].instrument)) + AbsMarks(positions[1..], prices)
  }

  /** What the mismatches are worth. */
  function Drift(clean: seq<Position>, reported: seq<Position>, prices: map<string, real>): real
    requires |clean| == |reported|
  {
    if clean == [] then 0.0
    else
      (reported[0].quantity - clean[0].quantity) * PriceIn(prices, clean[0].instrument)
      + Drift(clean[1..], reported[1..], prices)
  }

  lemma {:induction false} MismatchMovesValue(clean: seq<Position>, reported: seq<Position>, prices: map<string, real>)
    requires Mismatched(clean, reported)
    ensures MarketValue(reported, prices) == MarketValue(clean, prices) + Drift(clean, reported, prices)
  {
    if clean == [] {
      assert reported == [];
    } else {
      MismatchMovesValue(clean[1..], reported[1..], prices);
      DriftValue(reported[0].quantity, clean[0].quantity, PriceIn(prices, clean[0].instrument));
    }
  }

  lemma {:induction false} DriftBound(clean: seq<Position>, reported: seq<Position>, prices: map<string, real>)
    requires Mismatched(clean, reported)
    ensures Abs(Drift(clean, reported, prices)) <= 5.0 * AbsMarks(clean, prices)
  {
    if clean != [] {
      DriftBound(clean[1..], reported[1..], prices);
      var drift, price := reported[0].quantity - clean[0].quantity, PriceIn(prices, clean[0].instrument);
      DriftOfOne(drift, price);
      assert Drift(clean, reported, prices) == drift * price + Drift(clean[1..], reported[1..], prices);
    }
  }

  lemma DriftOfOne(drift: real, price: real)
    requires -5.0 <= drift <= 5.0
    ensures -5.0 * Abs(price) <= drift * price <= 5.0 * Abs(price)
  {
    ErrorScales(price, drift, 5.0);
    assert drift * price == price * drift;
  }

  /** Mismatches move the market value by at most five times the absolute marks held. */
  lemma MismatchedValue(clean: seq<Position>, reported: seq<Position>, prices: map<string, real>)
    requires Mismatched(clean, reported)
    ensures Abs(MarketValue(reported, prices) - MarketValue(clean, prices)) <= 5.0 * AbsMarks(clean, prices)
  {
    MismatchMovesValue(clean, reported, prices);
    DriftBound(clean, reported, prices);
  }

  lemma DriftValue(reported: real, clean: real, price: real)
    ensures reported * price == clean * price + (reported - clean) * price
  {
  }

  /** The bound is the best there is: some mismatches move the market value by all of it. */
  lemma {:induction false} MismatchCanReachBound(clean: seq<Position>, prices: map<string, real>) returns (reported: seq<Position>)
    ensures Mismatched(clean, reported)
    ensures MarketValue(reported, prices) - MarketValue(clean, prices) == 5.0 * AbsMarks(clean, prices)
  {
    if clean == [] {
      reported := [];
    } else {
      var rest := MismatchCanReachBound(clean[1..], prices);
      var price, quantity := PriceIn(prices, clean[0].instrument), clean[0].quantity;
      var drift := if price < 0.0 then -5.0 else 5.0;
      reported := [Position(clean[0].instrument, quantity + drift)] + rest;
      assert reported[1..] == rest;
      DriftValue(quantity + drift, quantity, price);
      assert price * drift == 5.0 * Abs(price);
    }
  }

  /** get_nav with mismatches on is the clean NAV and what the mismatches are worth. */
  lemma ReportedNavIs(orders: seq<Order>, reported: seq<Position>, prices: map<string, real>)
    requires Mismatched(Positions(orders), reported)
    ensures ReportedNav(reported, orders, prices) == Nav(orders, prices) + Drift(Positions(orders), reported, prices)
  {
    MismatchMovesValue(Positions(orders), reported, prices);
  }

  lemma {:induction false} NoDrift(positions: seq<Position>, prices: map<string, real>)
    ensures Drift(positions, positions, prices) == 0.0
  {
    if positions != [] {
      NoDrift(positions[1..], prices);
    }
  }

  /** FundAdminService.get_nav. `reported` are the positions it was computed from. */
  method AdminNav(orders: seq<Order>, prices: map<string, real>, mismatches: bool)
    returns (nav: real, ghost reported: seq<Position>)
    ensures Mismatched(Positions(orders), reported) && nav == ReportedNav(reported, orders, prices)
    ensures Abs(nav - Nav(orders, prices)) <= 5.0 * AbsMarks(Positions(orders), prices)
    ensures !mismatches ==> nav == Nav(orders, prices)
  {
    var positions := AdminPositions(orders, mismatches);
    var cash := AdminCash(orders);
    var marketValue := 0.0;
    for k := 0 to |positions|
      invariant marketValue + MarketValue(positions[k..], prices) == MarketValue(positions, prices)
    {
      assert positions[k..][1..] == positions[k + 1..];
      marketValue := marketValue + positions[k].quantity * PriceIn(prices, positions[k].instrument);
    }
    nav, reported := marketValue + cash, positions;
    MismatchedValue(Positions(orders), positions, prices);
  }

  // ---------------------------------------------------------------------
  // What one more order does to the NAV
  // ---------------------------------------------------------------------

  /** What one order adds to the NAV. */
  function Contribution(o: Order, prices: map<string, real>): real {
    (if Counted(o) then SignedQuantity(o) * PriceIn(prices, o.instrument) else 0.0) + CashOf(o)
  }

  lemma CleanNavOfAppend(orders: seq<Order>, o: Order, prices: map<string, real>)
    ensures Nav(orders + [o], prices) == Nav(orders, prices) + Contribution(o, prices)
  {
    assert (orders + [o])[..|orders|] == orders;
    if Counted(o) {
      MarketValueOfAdd(Positions(orders), o.instrument, SignedQuantity(o), prices);
    }
  }

  /** One more order that is filled, in part or in full, moves the position in its instrument,
      and only that one, by the quantity filled: down for "sell" and up for any other side. */
  lemma OrderMovesPosition(orders: seq<Order>, o: Order, instrument: string)
    ensures var quantity := FilledQuantity(o.fills);
      Get(Positions(orders + [o]), instrument) - Get(Positions(orders), instrument) ==
        if (o.status != Filled && o.status != PartiallyFilled) || o.instrument != instrument then 0.0
        else if o.side == "sell" then -quantity
        else quantity
  {
    assert (orders + [o])[..|orders|] == orders;
    PositionsAreNets(orders, instrument);
    AddToIsUpdate(Positions(orders), o.instrument, SignedQuantity(o), instrument);
  }

  /** It pays its average price times that quantity for "buy" and receives it for any other side. */
  lemma OrderMovesCash(orders: seq<Order>, o: Order)
    ensures var quantity, average := FilledQuantity(o.fills), AvgFillPrice(o);
      Cash(orders + [o]) - Cash(orders) ==
        if (o.status != Filled && o.status != PartiallyFilled) || average.None? then 0.0
        else if o.side == "buy" then -(quantity * average.value)
        else quantity * average.value
  {
    assert (orders + [o])[..|orders|] == orders;
  }

  /** Moving one mark moves the NAV by the position reported in that instrument times the
      move, whatever positions are reported, as long as none appears twice. */
  lemma NavOfMark(
      reported: seq<Position>, orders: seq<Order>, prices: map<string, real>, instrument: string, from: real, to: real)
    requires Unique(reported)
    ensures ReportedNav(reported, orders, prices[instrument := to])
         == ReportedNav(reported, orders, prices[instrument := from]) + Get(reported, instrument) * (to - from)
  {
    ValueOfMark(reported, prices, instrument, from, to, Get(reported, instrument));
  }

  /** An instrument without a mark counts as one marked at zero. */
  lemma NavWithoutMark(reported: seq<Position>, orders: seq<Order>, prices: map<string, real>, instrument: string)
    requires instrument !in prices
    ensures ReportedNav(reported, orders, prices) == ReportedNav(reported, orders, prices[instrument := 0.0])
  {
    ValueOfMissing(reported, prices, instrument);
  }

  lemma {:induction false} ValueOfMark(
      positions: seq<Position>, prices: map<string, real>, instrument: string, from: real, to: real, held: real)
    requires Unique(positions) && held == Get(positions, instrument)
    ensures MarketValue(positions, prices[instrument := to])
         == MarketValue(positions, prices[instrument := from]) + held * (to - from)
  {
    if positions != [] {
      if positions[0].instrument == instrument {
        ValueWithout(positions[1..], prices, instrument, from, to);
        MoveOf(held, from, to);
      } else {
        ValueOfMark(positions[1..], prices, instrument, from, to, held);
      }
    }
  }

  lemma MoveOf(quantity: real, from: real, to: real)
    ensures quantity * to == quantity * from + quantity * (to - from)
  {
  }

  lemma {:induction false} ValueWithout(
      positions: seq<Position>, prices: map<string, real>, instrument: string, from: real, to: real)
    requires instrument !in Instruments(positions)
    ensures MarketValue(positions, prices[instrument := to]) == MarketValue(positions, prices[instrument := from])
  {
    if positions != [] {
      ValueWithout(positions[1..], prices, instrument, from, to);
    }
  }

  lemma {:induction false} ValueOfMissing(positions: seq<Position>, prices: map<string, real>, instrument: string)
    requires instrument !in prices
    ensures MarketValue(positions, prices) == MarketValue(positions, prices[instrument := 0.0])
  {
    if positions != [] {
      ValueOfMissing(positions[1..], prices, instrument);
    }
  }

  /** How much more the mismatches of the later report are worth than those of the earlier one. */
  function DriftChange(
      orders: seq<Order>, o: Order, before: seq<Position>, after: seq<Position>, prices: map<string, real>): real
    requires Mismatched(Positions(orders), before) && Mismatched(Positions(orders + [o]), after)
  {
    Drift(Positions(orders + [o]), after, prices) - Drift(Positions(orders), before, prices)
  }

  /** One more order changes the NAV reported by its own contribution and by the change of
      what the mismatches are worth, which is nothing between two clean reports. */
  lemma NavOfAppend(orders: seq<Order>, o: Order, before: seq<Position>, after: seq<Position>, prices: map<string, real>)
    requires Mismatched(Positions(orders), before) && Mismatched(Positions(orders + [o]), after)
    ensures ReportedNav(after, orders + [o], prices)
         == ReportedNav(before, orders, prices) + Contribution(o, prices) + DriftChange(orders, o, before, after, prices)
    ensures before == Positions(orders) && after == Positions(orders + [o]) ==>
      DriftChange(orders, o, before, after, prices) == 0.0
  {
    CleanNavOfAppend(orders, o, prices);
    ReportedNavIs(orders, before, prices);
    ReportedNavIs(orders + [o], after, prices);
    NoDrift(Positions(orders), prices);
    NoDrift(Positions(orders + [o]), prices);
  }

  /** Appending an order whose average fill price is its mark changes the NAV by no more
      than the mismatches do exactly when the positions and the cash ledger read its side
      the same way, that is for "buy" and "sell", or when it moved no money. */
  lemma TradeAtMarkKeepsNavIff(
      orders: seq<Order>, o: Order, before: seq<Position>, after: seq<Position>, prices: map<string, real>)
    requires Mismatched(Positions(orders), before) && Mismatched(Positions(orders + [o]), after)
    requires Counted(o) && AvgFillPrice(o) == Some(PriceIn(prices, o.instrument))
    ensures var kept :=
        ReportedNav(before, orders, prices) + DriftChange(orders, o, before, after, prices);
      ReportedNav(after, orders + [o], prices) == kept <==>
            o.side == "buy" || o.side == "sell" || PriceIn(prices, o.instrument) == 0.0
  {
    NavOfAppend(orders, o, before, after, prices);
    ContributionAtMark(o, prices);
  }

  lemma ContributionAtMark(o: Order, prices: map<string, real>)
    requires Counted(o) && AvgFillPrice(o) == Some(PriceIn(prices, o.instrument))
    ensures Contribution(o, prices) == 0.0 <==>
            o.side == "buy" || o.side == "sell" || PriceIn(prices, o.instrument) == 0.0
  {
    var quantity, price := FilledQuantity(o.fills), PriceIn(prices, o.instrument);
    assert (-quantity) * price == -(quantity * price);
    if o.side != "buy" && o.side != "sell" && price != 0.0 {
      assert quantity != 0.0;
      assert quantity * price != 0.0;
    }
  }

  /** Orders that traded nothing, or are not counted, change nothing but the mismatches, whatever the marks. */
  lemma UnfilledKeepsNav(
      orders: seq<Order>, o: Order, before: seq<Position>, after: seq<Position>, prices: map<string, real>)
    requires Mismatched(Positions(orders), before) && Mismatched(Positions(orders + [o]), after)
    requires !Counted(o) || AvgFillPrice(o).None?
    ensures ReportedNav(after, orders + [o], prices)
         == ReportedNav(before, orders, prices) + DriftChange(orders, o, before, after, prices)
  {
    NavOfAppend(orders, o, before, after, prices);
  }

  /** So one more order moves the NAV reported by its contribution, up to five times the
      absolute marks held before and after. */
  lemma ReportedNavOfAppend(
      orders: seq<Order>, o: Order, before: seq<Position>, after: seq<Position>, prices: map<string, real>)
    requires Mismatched(Positions(orders), before) && Mismatched(Positions(orders + [o]), after)
    ensures Abs(ReportedNav(after, orders + [o], prices) - ReportedNav(before, orders, prices) - Contribution(o, prices))
         <= 5.0 * AbsMarks(Positions(orders), prices) + 5.0 * AbsMarks(Positions(orders + [o]), prices)
  {
    assert ReportedNav(after, orders + [o], prices) - ReportedNav(before, orders, prices) - Contribution(o, prices)
        == DriftChange(orders, o, before, after, prices) by {
      NavOfAppend(orders, o, before, after, prices);
    }
    assert Abs(DriftChange(orders, o, before, after, prices))
        <= 5.0 * AbsMarks(Positions(orders), prices) + 5.0 * AbsMarks(Positions(orders + [o]), prices) by {
      DriftChangeBound(orders, o, before, after, prices);
    }
  }

  lemma DriftChangeBound(
      orders: seq<Order>, o: Order, before: seq<Position>, after: seq<Position>, prices: map<string, real>)
    requires Mismatched(Positions(orders), before) && Mismatched(Positions(orders + [o]), after)
    ensures Abs(DriftChange(orders, o, before, after, prices))
         <= 5.0 * AbsMarks(Positions(orders), prices) + 5.0 * AbsMarks(Positions(orders + [o]), prices)
  {
    DriftBound(Positions(orders), before, prices);
    DriftBound(Positions(orders + [o]), after, prices);
  }

  // ---------------------------------------------------------------------
  // Rounding of cash
  // ---------------------------------------------------------------------

  /** An order that filled a quantity has an average price, which misstates its money by at
      most 0.00005 a unit; an order that filled none has none. */
  lemma CashWithinRounding(o: Order)
    ensures if FilledQuantity(o.fills) == 0.0 then AvgFillPrice(o).None?
      else AvgFillPrice(o).Some? && Worth(FilledQuantity(o.fills), AvgFillPrice(o).value, FilledValue(o.fills))
  {
    if FilledQuantity(o.fills) != 0.0 {
      QuantizedAverage(FilledValue(o.fills), FilledQuantity(o.fills));
    }
  }

  /** get_cash_balances: the USD entry. */
  method AdminCash(orders: seq<Order>) returns (usd: real)
    ensures usd == Cash(orders)
  {
    usd := 0.0;
    for k := 0 to |orders|
      invariant usd == Cash(orders[..k])
    {
      assert orders[..k + 1][..k] == orders[..k];
      var order := orders[k];
      if !Counted(order) || AvgFillPrice(order).None? {
        continue;
      }
      var amount := FilledQuantity(order.fills) * AvgFillPrice(order).value;
      if order.side == "buy" {
        usd := usd - amount;
      } else {
        usd := usd + amount;
      }
    }
    assert orders[..|orders|] == orders;
  }
}
