/** Ambient flow: random resting orders and random market orders against one book,
    with the trades recorded on the tape. Random draws are nondeterministic
    choices, so the contracts hold for every draw. */
module AmbientFlow {
  import opened Market
  import opened Rounding
  import opened Ladder
  import opened OrderBook
  import opened BookLaws
  import opened TradeTape

  /** Units on both ladders. */
  function BookDepth(b: Book): int {
    TotalDepth(Sell, b.bids) + TotalDepth(Buy, b.asks)
  }

  ghost predicate AllTake(ops: seq<Op>) {
    forall i :: 0 <= i < |ops| ==> ops[i].Take? && ops[i].quantity > 0
  }

  /** What _generate_market_trades does with a volume: nothing, or one to five market orders
      of at least a unit that request exactly the volume. */
  ghost predicate TakingFor(ops: seq<Op>, volume: int) {
    if volume <= 0 then ops == []
    else 1 <= |ops| <= 5 && AllTake(ops) && Requested(ops) == volume
  }

  /** The units a sequence of market orders asks for. */
  function Requested(ops: seq<Op>): int {
    if ops == [] then 0 else (if ops[0].Take? then ops[0].quantity else 0) + Requested(ops[1..])
  }

  lemma {:induction false} RunAppend(b: Book, ops: seq<Op>, op: Op)
    ensures Run(b, ops + [op]) == Apply(Run(b, ops), op)
    ensures AllowedRun(b, ops + [op]) <==> AllowedRun(b, ops) && Allowed(Run(b, ops), op)
    ensures Requested(ops + [op]) == Requested(ops) + if op.Take? then op.quantity else 0
    decreases |ops|
  {
    if ops == [] {
      assert ops + [op] == [op] && [op][1..] == [];
    } else {
      RunAppend(Apply(b, ops[0]), ops[1..], op);
      assert (ops + [op])[1..] == ops[1..] + [op];
    }
  }

  /** The trades of an ambient market order: those of the sweep, flagged. */
  function Flagged(ticks: seq<TradeTick>): (flagged: seq<TradeTick>)
    ensures |flagged| == |ticks|
  {
    seq(|ticks|, i requires 0 <= i < |ticks| => ticks[i].(isAmbient := true))
  }

  /** The same trades with the ambient flag taken off. */
  ghost function Unflagged(ticks: seq<TradeTick>): (r: seq<TradeTick>)
    ensures |r| == |ticks| && forall i :: 0 <= i < |ticks| ==> r[i] == ticks[i].(isAmbient := false)
  {
    seq(|ticks|, i requires 0 <= i < |ticks| => ticks[i].(isAmbient := false))
  }

  ghost predicate AmbientIn(ticks: seq<TradeTick>, instrument: string) {
    forall i :: 0 <= i < |ticks| ==> ticks[i].isAmbient && ticks[i].instrument == instrument
  }

  lemma {:induction false} FlaggedVolume(
      instrument: string, tickSize: PositiveReal, side: Side, timestamp: int, fills: seq<Level>)
    ensures Volume(Flagged(Ticks(instrument, tickSize, side, timestamp, fills))) == Units(fills)
  {
    if fills != [] {
      FlaggedVolume(instrument, tickSize, side, timestamp, fills[1..]);
      assert Flagged(Ticks(instrument, tickSize, side, timestamp, fills))[1..]
          == Flagged(Ticks(instrument, tickSize, side, timestamp, fills[1..]));
    }
  }

  lemma {:induction false} AmbientCounts(ticks: seq<TradeTick>, instrument: string, other: string)
    requires AmbientIn(ticks, instrument)
    ensures Of(ticks, other) == if other == instrument then ticks else []
  {
    if ticks != [] {
      AmbientCounts(ticks[1..], instrument, other);
    }
  }

  /** Ambient trades count toward their own instrument only. */
  lemma AmbientVolume(today: seq<TradeTick>, ambient: seq<TradeTick>, instrument: string, other: string)
    requires AmbientIn(ambient, instrument)
    ensures Volume(Of(today + ambient, other)) ==
            Volume(Of(today, other)) + if other == instrument then Volume(ambient) else 0
  {
    OfAppend(today, ambient, other);
    AmbientCounts(ambient, instrument, other);
    VolumeAppend(Of(today, other), Of(ambient, other));
  }

  /** One market order takes from the book exactly what it fills. */
  lemma TakeMovesDepth(b: Book, side: Side, quantity: int)
    requires PositiveBook(b)
    ensures BookDepth(AfterMarketOrder(b, side, quantity)) == BookDepth(b) - Units(Swept(b, side, None, quantity).fills)
  {
    MarketOrderFills(b, side, quantity);
  }

  function Offset(tickSize: PositiveReal, levels: nat): (offset: real)
    ensures offset >= 0.0
  {
    tickSize * levels as real
  }

  /** Resting orders in pairs, a bid and an ask at each of 1, 2, ... ticks from the mid, with
      quantities from half to one and a half times the given one, and at least one. */
  ghost predicate Pairs(tickSize: PositiveReal, ops: seq<Op>, perLevel: int) {
    && |ops| % 2 == 0
    && forall i :: 0 <= i < |ops| ==> PairAt(tickSize, ops[i], i, perLevel)
  }

  predicate PairAt(tickSize: PositiveReal, op: Op, i: nat, perLevel: int) {
    && op.Rest? && op.side == (if i % 2 == 0 then Buy else Sell)
    && op.offset == Offset(tickSize, i / 2 + 1)
    && Max(1, perLevel / 2) <= op.quantity <= Max(1, perLevel * 3 / 2)
  }

  /** On a book with the same tick, the pair at position i rests i / 2 + 1 ticks away from the
      rounded mid, except for a mid half way between ticks whose bid or ask lies across zero. */
  lemma PairPrice(tickSize: PositiveReal, mid: real, op: Op, i: nat, perLevel: int)
    requires PairAt(tickSize, op, i, perLevel)
    ensures var away := if op.side.Buy? then -(i / 2 + 1) else i / 2 + 1;
      RoundTicks(tickSize, if op.side.Buy? then mid - op.offset else mid + op.offset)
      == RoundTicks(tickSize, mid) + away + CrossedTie(mid / tickSize, away)
  {
    var levels, m := i / 2 + 1, mid / tickSize;
    assert m * tickSize == mid;
    DivideExactly(mid - op.offset, tickSize, m - levels as real);
    DivideExactly(mid + op.offset, tickSize, m + levels as real);
    RoundHalfUpShift(m, levels);
    RoundHalfUpShift(m, -levels);
  }

  /** What _add_resting_orders does with a volume: nothing, or five to ten levels a side. */
  ghost predicate RestingFor(tickSize: PositiveReal, ops: seq<Op>, volume: int) {
    if volume <= 0 then ops == []
    else 10 <= |ops| <= 20 && Pairs(tickSize, ops, Max(1, volume / |ops|))
  }

  /** The units a sequence of resting orders adds. */
  function Rested(ops: seq<Op>): int {
    if ops == [] then 0 else (if ops[0].Rest? then ops[0].quantity else 0) + Rested(ops[1..])
  }

  lemma {:induction false} RestingAddsDepth(b: Book, ops: seq<Op>)
    requires forall i :: 0 <= i < |ops| ==> ops[i].Rest?
    ensures BookDepth(Run(b, ops)) == BookDepth(b) + Rested(ops)
    ensures Requested(ops) == 0
    decreases |ops|
  {
    if ops != [] {
      assert BookDepth(Apply(b, ops[0])) == BookDepth(b) + ops[0].quantity by {
        RestAddsDepth(b, ops[0].side, ops[0].offset, ops[0].quantity);
      }
      assert forall i :: 0 <= i < |ops[1..]| ==> ops[1..][i] == ops[i + 1];
      RestingAddsDepth(Apply(b, ops[0]), ops[1..]);
    }
  }

  lemma {:induction false} RestingKeepsPositive(b: Book, ops: seq<Op>)
    requires PositiveBook(b) && AllowedRun(b, ops) && forall i :: 0 <= i < |ops| ==> ops[i].Rest?
    ensures PositiveBook(Run(b, ops))
    decreases |ops|
  {
    if ops != [] {
      assert forall i :: 0 <= i < |ops[1..]| ==> ops[1..][i] == ops[i + 1];
      RestingKeepsPositive(Apply(b, ops[0]), ops[1..]);
    }
  }

  lemma RestAddsDepth(b: Book, side: Side, offset: real, quantity: int)
    ensures BookDepth(Apply(b, Rest(side, offset, quantity))) == BookDepth(b) + quantity
  {
    var ticks := RestIsLevel(b, side, offset, quantity);
    LevelAddsDepth(b, side, ticks, quantity);
  }

  lemma RestIsLevel(b: Book, side: Side, offset: real, quantity: int) returns (ticks: int)
    ensures Apply(b, Rest(side, offset, quantity)) == WithLevel(b, side, ticks, quantity)
  {
    ticks := RoundTicks(b.tickSize, if side.Buy? then b.mid - offset else b.mid + offset);
  }

  lemma LevelAddsDepth(b: Book, side: Side, ticks: int, quantity: int)
    ensures BookDepth(WithLevel(b, side, ticks, quantity)) == BookDepth(b) + quantity
  {
    AddedDepth(Sell, b.bids, ticks, quantity);
    AddedDepth(Buy, b.asks, ticks, quantity);
  }

  /** One more pair, a tick further out. */
  lemma PairsAppend(tickSize: PositiveReal, ops: seq<Op>, perLevel: int, bid: Op, ask: Op)
    requires Pairs(tickSize, ops, perLevel)
    requires PairAt(tickSize, bid, |ops|, perLevel) && PairAt(tickSize, ask, |ops| + 1, perLevel)
    ensures Pairs(tickSize, ops + [bid, ask], perLevel)
  {
  }

  /** random.randint */
  method DrawBetween(low: int, high: int) returns (draw: int)
    requires low <= high
    ensures low <= draw <= high
  {
    draw :| low <= draw <= high;
  }

  /** Adding units away from the mid is always allowed. */
  lemma AppendRest(start: Book, ops: seq<Op>, side: Side, offset: real, quantity: int)
    requires AllowedRun(start, ops) && offset >= 0.0 && quantity > 0
    ensures AllowedRun(start, ops + [Rest(side, offset, quantity)])
    ensures Run(start, ops + [Rest(side, offset, quantity)]) == Apply(Run(start, ops), Rest(side, offset, quantity))
  {
    RunAppend(start, ops, Rest(side, offset, quantity));
    RestAllowed(Run(start, ops), side, offset, quantity);
  }

  lemma RestAllowed(b: Book, side: Side, offset: real, quantity: int)
    requires offset >= 0.0 && quantity > 0
    ensures Allowed(b, Rest(side, offset, quantity))
  {
  }

  /** One bid below and one ask above the mid, extending a run of allowed operations. */
  method AddPair(book: SimulatedOrderBook, offset: real, bidQty: int, askQty: int, ghost start: Book, ghost ops: seq<Op>)
    returns (ghost more: seq<Op>)
    requires offset >= 0.0 && bidQty >= 1 && askQty >= 1
    requires book.State() == Run(start, ops) && AllowedRun(start, ops)
    modifies book
    ensures book.State() == Run(start, more) && AllowedRun(start, more)
    ensures more == ops + [Rest(Buy, offset, bidQty), Rest(Sell, offset, askQty)]
  {
    RestAway(book, Buy, offset, bidQty, start, ops);
    more := ops + [Rest(Buy, offset, bidQty)];
    RestAway(book, Sell, offset, askQty, start, more);
    more := more + [Rest(Sell, offset, askQty)];
  }

  method RestAway(book: SimulatedOrderBook, side: Side, offset: real, quantity: int, ghost start: Book, ghost ops: seq<Op>)
    requires offset >= 0.0 && quantity >= 1
    requires book.State() == Run(start, ops) && AllowedRun(start, ops)
    modifies book
    ensures var more := ops + [Rest(side, offset, quantity)];
      book.State() == Run(start, more) && AllowedRun(start, more)
  {
    AppendRest(start, ops, side, offset, quantity);
    book.AddLiquidity(side, if side.Buy? then book.mid - offset else book.mid + offset, quantity);
  }

  /** Five to ten levels a side at growing offsets from the mid: an allowed run of resting
      orders, which adds to the ladders exactly the quantities drawn. */
  method AddRestingOrders(book: SimulatedOrderBook, tickSize: PositiveReal, totalVolume: int)
    returns (ghost ops: seq<Op>)
    modifies book
    ensures book.State() == Run(old(book.State()), ops) && AllowedRun(old(book.State()), ops)
    ensures RestingFor(tickSize, ops, totalVolume)
    ensures BookDepth(book.State()) == BookDepth(old(book.State())) + Rested(ops)
  {
    ops := [];
    if totalVolume <= 0 {
      return;
    }
    var numLevels := DrawBetween(5, 10);
    var perLevel := Max(1, totalVolume / (numLevels * 2));
    for i := 1 to numLevels + 1
      invariant book.State() == Run(old(book.State()), ops) && AllowedRun(old(book.State()), ops)
      invariant |ops| == 2 * (i - 1) && Pairs(tickSize, ops, perLevel)
    {
      // max(1, int(per_level * random.uniform(0.5, 1.5)))
      var bidQty := DrawBetween(Max(1, perLevel / 2), Max(1, perLevel * 3 / 2));
      var askQty := DrawBetween(Max(1, perLevel / 2), Max(1, perLevel * 3 / 2));
      PairsAppend(
        tickSize, ops, perLevel, Rest(Buy, Offset(tickSize, i), bidQty), Rest(Sell, Offset(tickSize, i), askQty));
      ops := AddPair(book, Offset(tickSize, i), bidQty, askQty, old(book.State()), ops);
    }
    RestingAddsDepth(old(book.State()), ops);
  }

  /** Today's recorded volume plus the depth still on the book. */
  ghost function Accounted(book: SimulatedOrderBook, tape: Tape): int
    reads book, tape
  {
    tape.Counted(book.instrumentId) + BookDepth(book.State())
  }

  /** What holds after each ambient market order, relative to the start of the interval. */
  ghost predicate Flowing(
    book: SimulatedOrderBook, tape: Tape, start: Book, ops: seq<Op>, history: seq<TradeTick>, dayStart: nat, total: int)
    reads book, tape
  {
    && tape.Valid() && PositiveBook(book.State())
    && book.State() == Run(start, ops) && AllowedRun(start, ops)
    && history <= tape.history && tape.dayStart == dayStart
    && AmbientIn(tape.history[|history|..], book.instrumentId)
    && Accounted(book, tape) == total
  }

  method FlowStep(
      book: SimulatedOrderBook, tape: Tape, side: Side, quantity: int, now: int, ghost start: Book, ghost ops: seq<Op>,
      ghost history: seq<TradeTick>, ghost dayStart: nat, ghost total: int)
    returns (ghost more: seq<Op>)
    requires Flowing(book, tape, start, ops, history, dayStart, total)
    modifies book, tape
    ensures Flowing(book, tape, start, more, history, dayStart, total)
    ensures more == ops + [Take(side, quantity)] && Requested(more) == Requested(ops) + quantity
  {
    ghost var before := tape.history;
    more := ops + [Take(side, quantity)];
    RunAppend(start, ops, Take(side, quantity));
    TradeAndRecord(book, tape, side, quantity, now);
    assert tape.history[|history|..] == before[|history|..] + tape.history[|before|..];
  }

  /** One to five market orders of random size and side. For every draw they request
      exactly the target volume, and the tape's daily counter for the instrument
      rises by exactly the depth the two ladders lose; no other counter moves. */
  method GenerateMarketTrades(book: SimulatedOrderBook, tape: Tape, totalVolume: int, now: int)
    returns (ghost ops: seq<Op>)
    requires tape.Valid() && PositiveBook(book.State())
    modifies book, tape
    ensures Flowing(book, tape, old(book.State()), ops, old(tape.history), old(tape.dayStart), old(Accounted(book, tape)))
    ensures TakingFor(ops, totalVolume)
    ensures tape.Counted(book.instrumentId) - old(tape.Counted(book.instrumentId))
         == BookDepth(old(book.State())) - BookDepth(book.State())
    ensures forall i :: i != book.instrumentId ==> tape.Counted(i) == old(tape.Counted(i))
  {
    ops := [];
    ghost var today := tape.history[tape.dayStart..];
    if totalVolume > 0 {
      ops := SplitIntoOrders(book, tape, totalVolume, now);
    }
    ghost var ambient := tape.history[|old(tape.history)|..];
    assert tape.history[tape.dayStart..] == today + ambient;
    forall i | i != book.instrumentId ensures tape.Counted(i) == old(tape.Counted(i)) {
      AmbientVolume(today, ambient, book.instrumentId, i);
      assert old(tape.Counted(i)) == Volume(Of(today, i));
    }
  }

  method SplitIntoOrders(book: SimulatedOrderBook, tape: Tape, totalVolume: int, now: int)
    returns (ghost ops: seq<Op>)
    requires totalVolume > 0
    requires tape.Valid() && PositiveBook(book.State())
    modifies book, tape
    ensures Flowing(book, tape, old(book.State()), ops, old(tape.history), old(tape.dayStart), old(Accounted(book, tape)))
    ensures TakingFor(ops, totalVolume)
  {
    ops := [];
    var numOrders := DrawBetween(1, 5);
    var remaining := totalVolume;
    var i := 0;
    ghost var start, history, dayStart, total := book.State(), tape.history, tape.dayStart, Accounted(book, tape);
    while i < numOrders && remaining > 0
      invariant 0 <= i <= numOrders && 0 <= remaining
      invariant i == numOrders ==> remaining == 0
      invariant Flowing(book, tape, start, ops, history, dayStart, total)
      invariant Requested(ops) + remaining == totalVolume
      invariant |ops| == i && AllTake(ops)
      decreases numOrders - i
    {
      var qty := remaining;
      if i != numOrders - 1 {
        qty := DrawBetween(1, Max(1, remaining / 2));
      }
      qty := Min(qty, remaining);
      var side: Side := *;
      ops := FlowStep(book, tape, side, qty, now, start, ops, history, dayStart, total);
      remaining := remaining - qty;
      i := i + 1;
    }
  }

  /** One ambient market order and its trades on the tape. */
  method TradeAndRecord(book: SimulatedOrderBook, tape: Tape, side: Side, quantity: int, now: int)
    requires tape.Valid() && PositiveBook(book.State())
    modifies book, tape
    ensures tape.Valid() && PositiveBook(book.State())
    ensures book.State() == AfterMarketOrder(old(book.State()), side, quantity)
    ensures old(tape.history) <= tape.history && tape.dayStart == old(tape.dayStart)
    ensures AmbientIn(tape.history[|old(tape.history)|..], book.instrumentId)
    ensures Unflagged(tape.history[|old(tape.history)|..])
         == Ticks(book.instrumentId, book.tickSize, side, now, Swept(old(book.State()), side, None, quantity).fills)
    ensures Accounted(book, tape) == old(Accounted(book, tape))
  {
    MarketOrderFills(book.State(), side, quantity);
    TakeMovesDepth(book.State(), side, quantity);
    ghost var fills := Swept(book.State(), side, None, quantity).fills;
    FlaggedVolume(book.instrumentId, book.tickSize, side, now, fills);
    var ticks := book.ExecuteMarketOrder(side, quantity, now);
    RecordAmbient(tape, Flagged(ticks), book.instrumentId);
    assert Unflagged(Flagged(ticks)) == ticks;
  }

  /** Ambient trades of one instrument count toward its volume. */
  method RecordAmbient(tape: Tape, ambient: seq<TradeTick>, instrument: string)
    requires tape.Valid() && AmbientIn(ambient, instrument)
    modifies tape
    ensures tape.Valid() && tape.dayStart == old(tape.dayStart)
    ensures tape.history == old(tape.history) + ambient
    ensures tape.history[|old(tape.history)|..] == ambient
    ensures tape.Counted(instrument) == old(tape.Counted(instrument)) + Volume(ambient)
  {
    ghost var today := tape.history[tape.dayStart..];
    tape.RecordTicks(ambient);
    assert tape.history[tape.dayStart..] == today + ambient;
    AmbientVolume(today, ambient, instrument, instrument);
    assert old(tape.Counted(instrument)) == Volume(Of(today, instrument));
  }

  /** One instrument's ambient activity for one interval: nothing while its exchange is
      closed, otherwise 80% of the target as resting orders and then the rest as market
      orders. Recorded volume and depth together rise by exactly what was rested, and
      the volume alone by the depth the market orders took. A positive book stays positive,
      and a sound one sound. */
  method GenerateForInstrument(book: SimulatedOrderBook, tape: Tape, open: bool, tickSize: PositiveReal, target: int, now: int)
    returns (ghost resting: seq<Op>, ghost taking: seq<Op>)
    requires tape.Valid() && PositiveBook(book.State())
    modifies book, tape
    ensures tape.Valid() && PositiveBook(book.State())
    ensures Sound(old(book.State())) ==> Sound(book.State())
    ensures !open || target <= 0 ==> book.State() == old(book.State()) && tape.history == old(tape.history)
    ensures old(tape.history) <= tape.history && tape.dayStart == old(tape.dayStart)
    ensures AmbientIn(tape.history[|old(tape.history)|..], book.instrumentId)
    ensures book.State() == Run(Run(old(book.State()), resting), taking)
    ensures open && target > 0 ==>
      RestingFor(tickSize, resting, target * 8 / 10) && TakingFor(taking, target - target * 8 / 10)
    ensures Accounted(book, tape) == old(Accounted(book, tape)) + Rested(resting)
    ensures tape.Counted(book.instrumentId) - old(tape.Counted(book.instrumentId))
         == BookDepth(Run(old(book.State()), resting)) - BookDepth(book.State())
    ensures forall i :: i != book.instrumentId ==> tape.Counted(i) == old(tape.Counted(i))
  {
    resting, taking := [], [];
    if !open || target <= 0 {
      return;
    }
    var limitVolume := target * 8 / 10;
    var marketVolume := target - limitVolume;
    ghost var start := book.State();
    resting := AddRestingOrders(book, tickSize, limitVolume);
    RestingKeepsPositive(start, resting);
    if Sound(start) {
      RunKeepsSound(start, resting);
    }
    if marketVolume > 0 {
      ghost var middle := book.State();
      taking := GenerateMarketTrades(book, tape, marketVolume, now);
      if Sound(middle) {
        RunKeepsSound(middle, taking);
      }
    }
  }
}
