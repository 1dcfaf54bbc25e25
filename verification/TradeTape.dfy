/** The trade tape: a bounded buffer of trades per instrument, a daily volume
    counter, and VWAP and volume queries over the buffer. */
module TradeTape {
  import opened Market
  import opened Rounding
  import opened Selection

  datatype Vwap = Vwap(instrument: string, vwap: real, cumulativeVolume: int, periodStart: int, periodEnd: int)

  /** quantize(Decimal("0.0001")): four decimal places, ties to even. */
  function QuantizePrice(x: real): real {
    RoundHalfEven(x * 10000.0) as real / 10000.0
  }

  /** Quantizing moves a price by at most half of the fourth place, and a price half way goes
      to an even fourth place. */
  lemma QuantizeNear(x: real)
    ensures Abs(QuantizePrice(x) - x) <= 0.00005
    ensures Abs(QuantizePrice(x) - x) == 0.00005 ==> (QuantizePrice(x) * 10000.0).Floor % 2 == 0
  {
    var n := RoundHalfEven(x * 10000.0);
    RoundHalfEvenIff(x * 10000.0, n);
    assert QuantizePrice(x) * 10000.0 == n as real;
  }

  /** So many units at this price are worth the money, to within 0.00005 a unit. */
  predicate Worth(units: real, price: real, money: real) {
    Abs(units * price - money) <= Abs(units) * 0.00005
  }

  /** A quantized average misstates the money by at most 0.00005 a unit. */
  lemma QuantizedAverage(value: real, units: real)
    requires units != 0.0
    ensures Worth(units, QuantizePrice(value / units), value)
  {
    var average := value / units;
    QuantizeNear(average);
    assert average * units == value;
    ErrorScales(units, QuantizePrice(average) - average, 0.00005);
    Distribute(units, average, QuantizePrice(average) - average);
  }

  lemma Distribute(q: real, x: real, y: real)
    ensures q * (x + y) == x * q + q * y
  {
  }

  lemma ErrorScales(quantity: real, error: real, bound: real)
    requires -bound <= error <= bound
    ensures Abs(quantity * error) <= Abs(quantity) * bound
  {
    if quantity >= 0.0 {
      assert quantity * error <= quantity * bound && quantity * -bound <= quantity * error;
    } else {
      assert -quantity * error <= -quantity * bound && -quantity * -bound <= -quantity * error;
    }
  }

  // ---------------------------------------------------------------------
  // Sums over trades
  // ---------------------------------------------------------------------

  function Volume(ticks: seq<TradeTick>): int {
    if ticks == [] then 0 else ticks[0].quantity + Volume(ticks[1..])
  }

  function Notional(ticks: seq<TradeTick>): real {
    if ticks == [] then 0.0 else ticks[0].price * ticks[0].quantity as real + Notional(ticks[1..])
  }

  /** The trades of one instrument, in order. */
  function Of(ticks: seq<TradeTick>, instrument: string): seq<TradeTick> {
    if ticks == [] then []
    else Picked(ticks[0], instrument) + Of(ticks[1..], instrument)
  }

  function Picked(tick: TradeTick, instrument: string): seq<TradeTick> {
    if tick.instrument == instrument then [tick] else []
  }

  /** The trades with start <= timestamp <= end, in order. */
  function Between(ticks: seq<TradeTick>, start: int, end: int): seq<TradeTick> {
    if ticks == [] then []
    else (if start <= ticks[0].timestamp <= end then [ticks[0]] else []) + Between(ticks[1..], start, end)
  }

  /** The trades with since <= timestamp, in order. */
  function Since(ticks: seq<TradeTick>, since: int): seq<TradeTick> {
    if ticks == [] then []
    else (if since <= ticks[0].timestamp then [ticks[0]] else []) + Since(ticks[1..], since)
  }

  /** The trades an early-exit scan adds up: it skips trades before the start and
      stops at the first trade after the end. */
  function Scanned(ticks: seq<TradeTick>, start: int, end: int): seq<TradeTick> {
    if ticks == [] then []
    else if ticks[0].timestamp < start then Scanned(ticks[1..], start, end)
    else if ticks[0].timestamp > end then []
    else [ticks[0]] + Scanned(ticks[1..], start, end)
  }

  /** deque(maxlen=n): the last n elements. */
  function LastN(ticks: seq<TradeTick>, n: nat): seq<TradeTick> {
    if |ticks| <= n then ticks else ticks[|ticks| - n..]
  }

  ghost predicate TimeOrdered(ticks: seq<TradeTick>) {
    forall i, j :: 0 <= i < j < |ticks| ==> ticks[i].timestamp <= ticks[j].timestamp
  }

  /** None when nothing traded in the period. */
  function VwapOf(instrument: string, trades: seq<TradeTick>, start: int, end: int): Option<Vwap> {
    if Volume(trades) == 0 then None
    else Some(Vwap(instrument, QuantizePrice(Notional(trades) / Volume(trades) as real), Volume(trades), start, end))
  }

  /** A queried average: of these trades and this period, none exactly when they have no
      volume, and times the volume the money traded to within 0.00005 a unit. */
  predicate AverageOver(r: Option<Vwap>, instrument: string, trades: seq<TradeTick>, start: int, end: int) {
    if r.None? then Volume(trades) == 0
    else
      && Volume(trades) != 0 && r.value.cumulativeVolume == Volume(trades)
      && r.value.instrument == instrument && r.value.periodStart == start && r.value.periodEnd == end
      && Worth(Volume(trades) as real, r.value.vwap, Notional(trades))
  }

  lemma VwapIsAverage(instrument: string, trades: seq<TradeTick>, start: int, end: int)
    ensures AverageOver(VwapOf(instrument, trades, start, end), instrument, trades, start, end)
  {
    if Volume(trades) != 0 {
      QuantizedAverage(Notional(trades), Volume(trades) as real);
    }
  }

  // ---------------------------------------------------------------------
  // What the selections keep
  // ---------------------------------------------------------------------

  function TradesIn(instrument: string): TradeTick -> bool {
    (tick: TradeTick) => tick.instrument == instrument
  }

  function TradedBetween(start: int, end: int): TradeTick -> bool {
    (tick: TradeTick) => start <= tick.timestamp && tick.timestamp <= end
  }

  function TradedFrom(since: int): TradeTick -> bool {
    (tick: TradeTick) => since <= tick.timestamp
  }

  /** An instrument's trades are exactly those of the history that are in it, in order. */
  lemma {:induction false} OfIsFilter(ticks: seq<TradeTick>, instrument: string) returns (at: seq<nat>)
    ensures Selects(at, ticks, Of(ticks, instrument), TradesIn(instrument))
  {
    at := [];
    if ticks != [] {
      var later := OfIsFilter(ticks[1..], instrument);
      at := SelectsCons(later, ticks, Of(ticks[1..], instrument), TradesIn(instrument));
    }
  }

  /** A period's trades are exactly those made in it, both ends included, in order. */
  lemma {:induction false} BetweenIsFilter(ticks: seq<TradeTick>, start: int, end: int) returns (at: seq<nat>)
    ensures Selects(at, ticks, Between(ticks, start, end), TradedBetween(start, end))
  {
    at := [];
    if ticks != [] {
      var later := BetweenIsFilter(ticks[1..], start, end);
      at := SelectsCons(later, ticks, Between(ticks[1..], start, end), TradedBetween(start, end));
    }
  }

  lemma {:induction false} SinceIsFilter(ticks: seq<TradeTick>, since: int) returns (at: seq<nat>)
    ensures Selects(at, ticks, Since(ticks, since), TradedFrom(since))
  {
    at := [];
    if ticks != [] {
      var later := SinceIsFilter(ticks[1..], since);
      at := SelectsCons(later, ticks, Since(ticks[1..], since), TradedFrom(since));
    }
  }

  /** A bounded buffer holds the newest trades: as many as fit, and the evicted ones came before them. */
  lemma LastNIsNewest(ticks: seq<TradeTick>, n: nat) returns (evicted: seq<TradeTick>)
    ensures ticks == evicted + LastN(ticks, n) && |LastN(ticks, n)| == Min(n, |ticks|)
  {
    evicted := ticks[..|ticks| - |LastN(ticks, n)|];
  }

  // ---------------------------------------------------------------------
  // The early exit
  // ---------------------------------------------------------------------

  /** Trade i ends the scan and trade j, behind it, is inside the period. */
  predicate Hides(ticks: seq<TradeTick>, start: int, end: int, i: int, j: int) {
    && 0 <= i < j < |ticks|
    && ticks[i].timestamp >= start && ticks[i].timestamp > end && start <= ticks[j].timestamp <= end
  }

  /** Some trade inside the period comes after a trade that ends the scan. */
  ghost predicate MissedByScan(ticks: seq<TradeTick>, start: int, end: int) {
    exists i, j :: Hides(ticks, start, end, i, j)
  }

  /** The early-exit scan collects exactly the trades of the period, if and only if
      no such trade is behind one that stops the scan. */
  lemma {:induction false} ScanIsFilterIff(ticks: seq<TradeTick>, start: int, end: int)
    ensures Scanned(ticks, start, end) == Between(ticks, start, end) <==> !MissedByScan(ticks, start, end)
  {
    if ticks != [] {
      var tail := ticks[1..];
      ScanIsFilterIff(tail, start, end);
      assert forall i :: 0 <= i < |tail| ==> tail[i] == ticks[i + 1];
      if ticks[0].timestamp >= start && ticks[0].timestamp > end {
        BetweenEmptyIff(tail, start, end);
        if j :| 0 <= j < |tail| && start <= tail[j].timestamp <= end {
          assert Hides(ticks, start, end, 0, j + 1);
        }
      } else {
        MissedByTail(ticks, start, end);
        if start <= ticks[0].timestamp {
          assert Scanned(ticks, start, end)[1..] == Scanned(tail, start, end);
          assert Between(ticks, start, end)[1..] == Between(tail, start, end);
        }
      }
    }
  }

  lemma MissedByTail(ticks: seq<TradeTick>, start: int, end: int)
    requires ticks != [] && !(ticks[0].timestamp >= start && ticks[0].timestamp > end)
    ensures MissedByScan(ticks, start, end) <==> MissedByScan(ticks[1..], start, end)
  {
    var tail := ticks[1..];
    if MissedByScan(ticks, start, end) {
      var i, j :| Hides(ticks, start, end, i, j);
      assert Hides(tail, start, end, i - 1, j - 1);
    }
    if MissedByScan(tail, start, end) {
      var i, j :| Hides(tail, start, end, i, j);
      assert Hides(ticks, start, end, i + 1, j + 1);
    }
  }

  lemma {:induction false} BetweenEmptyIff(ticks: seq<TradeTick>, start: int, end: int)
    ensures Between(ticks, start, end) == [] <==> forall j :: 0 <= j < |ticks| ==> !(start <= ticks[j].timestamp <= end)
  {
    if ticks != [] {
      BetweenEmptyIff(ticks[1..], start, end);
      assert forall j :: 0 <= j < |ticks[1..]| ==> ticks[1..][j] == ticks[j + 1];
    }
  }

  /** In time order nothing is missed. */
  lemma ScanIsFilter(ticks: seq<TradeTick>, start: int, end: int)
    requires TimeOrdered(ticks)
    ensures Scanned(ticks, start, end) == Between(ticks, start, end)
  {
    ScanIsFilterIff(ticks, start, end);
  }

  /** ... and only then: a tape is in time order exactly when no query loses a trade to the early exit. */
  lemma OrderedIffScansAgree(ticks: seq<TradeTick>)
    ensures TimeOrdered(ticks) <==>
      forall start, end :: Scanned(ticks, start, end) == Between(ticks, start, end)
  {
    if TimeOrdered(ticks) {
      forall start, end ensures Scanned(ticks, start, end) == Between(ticks, start, end) {
        ScanIsFilter(ticks, start, end);
      }
    } else {
      var i, j :| 0 <= i < j < |ticks| && ticks[i].timestamp > ticks[j].timestamp;
      var t := ticks[j].timestamp;
      assert Hides(ticks, t, t, i, j);
      ScanIsFilterIff(ticks, t, t);
    }
  }

  /** Out of order the scan can lose volume: a late trade hides an earlier one. */
  lemma ScanCanMiss(early: TradeTick, late: TradeTick)
    requires early.timestamp < late.timestamp
    ensures var t := early.timestamp; Scanned([late, early], t, t) == [] && Between([late, early], t, t) == [early]
  {
    var t := early.timestamp;
    assert [early][1..] == [] && Between([], t, t) == [];
    assert Between([early], t, t) == [early] + Between([], t, t);
    assert [late, early][1..] == [early];
  }

  /** With an end past the last trade, the period's volume is the volume since its start. */
  lemma {:induction false} VolumeSinceAgrees(ticks: seq<TradeTick>, start: int, end: int)
    requires forall i :: 0 <= i < |ticks| ==> ticks[i].timestamp <= end
    ensures Since(ticks, start) == Between(ticks, start, end)
  {
    if ticks != [] {
      VolumeSinceAgrees(ticks[1..], start, end);
    }
  }

  // ---------------------------------------------------------------------
  // Appending
  // ---------------------------------------------------------------------

  lemma {:induction false} OfAppend(a: seq<TradeTick>, b: seq<TradeTick>, instrument: string)
    ensures Of(a + b, instrument) == Of(a, instrument) + Of(b, instrument)
  {
    if a == [] {
      assert a + b == b;
    } else {
      OfAppend(a[1..], b, instrument);
      assert (a + b)[1..] == a[1..] + b && (a + b)[0] == a[0];
      assert Picked(a[0], instrument) + (Of(a[1..], instrument) + Of(b, instrument))
          == Picked(a[0], instrument) + Of(a[1..], instrument) + Of(b, instrument);
    }
  }

  lemma {:induction false} VolumeAppend(a: seq<TradeTick>, b: seq<TradeTick>)
    ensures Volume(a + b) == Volume(a) + Volume(b)
  {
    if a == [] {
      assert a + b == b;
    } else {
      VolumeAppend(a[1..], b);
      assert (a + b)[1..] == a[1..] + b;
    }
  }

  /** Recording one trade changes one buffer, by appending and evicting from the front. */
  lemma BufferStep(history: seq<TradeTick>, tick: TradeTick, instrument: string, n: nat)
    ensures LastN(Of(history + [tick], instrument), n) ==
            var buffer := LastN(Of(history, instrument), n);
            if tick.instrument == instrument then LastN(buffer + [tick], n) else buffer
  {
    OfAppend(history, [tick], instrument);
    OfOne(tick, instrument);
    if tick.instrument == instrument {
      LastNAppend(Of(history, instrument), tick, n);
    } else {
      assert Of(history, instrument) + [] == Of(history, instrument);
    }
  }

  lemma OfOne(tick: TradeTick, instrument: string)
    ensures Of([tick], instrument) == Picked(tick, instrument)
  {
    assert [tick][1..] == [];
  }

  lemma LastNAppend(ticks: seq<TradeTick>, tick: TradeTick, n: nat)
    ensures LastN(ticks + [tick], n) == LastN(LastN(ticks, n) + [tick], n)
  {
  }

  /** ... and one counter, by the trade's quantity. */
  lemma CounterStep(today: seq<TradeTick>, tick: TradeTick, instrument: string)
    ensures Volume(Of(today + [tick], instrument)) ==
            Volume(Of(today, instrument)) + if tick.instrument == instrument then tick.quantity else 0
  {
    OfAppend(today, [tick], instrument);
    OfOne(tick, instrument);
    VolumeAppend(Of(today, instrument), Picked(tick, instrument));
  }

  lemma {:induction false} OfMembers(ticks: seq<TradeTick>, instrument: string)
    ensures forall k :: 0 <= k < |Of(ticks, instrument)| ==> Of(ticks, instrument)[k] in ticks
  {
    if ticks != [] {
      OfMembers(ticks[1..], instrument);
    }
  }

  lemma {:induction false} OfOrdered(ticks: seq<TradeTick>, instrument: string)
    requires TimeOrdered(ticks)
    ensures TimeOrdered(Of(ticks, instrument))
  {
    if ticks != [] {
      var tail := ticks[1..];
      OfOrdered(tail, instrument);
      OfMembers(tail, instrument);
      forall k | 0 <= k < |Of(tail, instrument)| ensures ticks[0].timestamp <= Of(tail, instrument)[k].timestamp {
        var j :| 0 <= j < |tail| && tail[j] == Of(tail, instrument)[k];
        assert tail[j] == ticks[j + 1];
      }
    }
  }

  /** What the trade at k adds to the totals of the scan. */
  lemma ScanStep(ticks: seq<TradeTick>, k: nat, start: int, end: int)
    requires k < |ticks|
    ensures var here, next := Scanned(ticks[k..], start, end), Scanned(ticks[k + 1..], start, end);
      if ticks[k].timestamp < start then here == next
      else if ticks[k].timestamp > end then here == []
      else
        && Volume(here) == ticks[k].quantity + Volume(next)
        && Notional(here) == ticks[k].price * ticks[k].quantity as real + Notional(next)
  {
    assert ticks[k..][1..] == ticks[k + 1..];
    if start <= ticks[k].timestamp <= end {
      assert Scanned(ticks[k..], start, end)[1..] == Scanned(ticks[k + 1..], start, end);
    }
  }

  /** The early-exit loop of vwap. */
  method ScanTotals(trades: seq<TradeTick>, start: int, end: int) returns (value: real, volume: int)
    ensures value == Notional(Scanned(trades, start, end)) && volume == Volume(Scanned(trades, start, end))
  {
    value, volume := 0.0, 0;
    var k := 0;
    while k < |trades|
      invariant 0 <= k <= |trades|
      invariant volume + Volume(Scanned(trades[k..], start, end)) == Volume(Scanned(trades, start, end))
      invariant value + Notional(Scanned(trades[k..], start, end)) == Notional(Scanned(trades, start, end))
    {
      var tick := trades[k];
      ScanStep(trades, k, start, end);
      if tick.timestamp >= start {
        if tick.timestamp > end {
          break;
        }
        value := value + tick.price * tick.quantity as real;
        volume := volume + tick.quantity;
      }
      k := k + 1;
    }
  }

  // ---------------------------------------------------------------------
  // The object
  // ---------------------------------------------------------------------

  class Tape {
    const maxTicks: nat
    var ticks: map<string, seq<TradeTick>>
    var daily: map<string, int>

    /** Everything ever recorded, and how much of it precedes the last reset. */
    ghost var history: seq<TradeTick>
    ghost var dayStart: nat

    /** The buffers hold the last `maxTicks` trades of each instrument, and the
        counters all volume since the last reset, evicted trades included. */
    ghost predicate Valid()
      reads this
    {
      && dayStart <= |history|
      && (forall i :: Buffered(i) == LastN(Of(history, i), maxTicks))
      && (forall i :: Counted(i) == Volume(Of(history[dayStart..], i)))
    }

    function Buffered(instrument: string): seq<TradeTick>
      reads this`ticks
    {
      if instrument in ticks then ticks[instrument] else []
    }

    /** daily_volume */
    function Counted(instrument: string): int
      reads this`daily
    {
      if instrument in daily then daily[instrument] else 0
    }

    constructor (maxTicks: nat)
      ensures Valid() && history == [] && dayStart == 0 && this.maxTicks == maxTicks
    {
      this.maxTicks := maxTicks;
      ticks, daily := map[], map[];
      history, dayStart := [], 0;
    }

    method RecordTick(tick: TradeTick)
      requires Valid()
      modifies this
      ensures Valid()
      ensures history == old(history) + [tick] && dayStart == old(dayStart)
    {
      ghost var before, today := history, history[dayStart..];
      ticks := ticks[tick.instrument := LastN(Buffered(tick.instrument) + [tick], maxTicks)];
      daily := daily[tick.instrument := Counted(tick.instrument) + tick.quantity];
      history := history + [tick];
      assert history[dayStart..] == today + [tick];
      forall i ensures Buffered(i) == LastN(Of(history, i), maxTicks) {
        BufferStep(before, tick, i, maxTicks);
        assert old(Buffered(i)) == LastN(Of(before, i), maxTicks);
      }
      forall i ensures Counted(i) == Volume(Of(history[dayStart..], i)) {
        CounterStep(today, tick, i);
        assert old(Counted(i)) == Volume(Of(today, i));
      }
    }

    method RecordTicks(more: seq<TradeTick>)
      requires Valid()
      modifies this
      ensures Valid()
      ensures history == old(history) + more && dayStart == old(dayStart)
    {
      for k := 0 to |more|
        invariant Valid()
        invariant history == old(history) + more[..k] && dayStart == old(dayStart)
      {
        RecordTick(more[k]);
      }
    }

    /** vwap, over the buffer. */
    method VwapBetween(instrument: string, start: int, end: int) returns (r: Option<Vwap>)
      requires Valid()
      ensures r == VwapOf(instrument, Scanned(LastN(Of(history, instrument), maxTicks), start, end), start, end)
      ensures TimeOrdered(history) ==>
        r == VwapOf(instrument, Between(LastN(Of(history, instrument), maxTicks), start, end), start, end)
      ensures AverageOver(r, instrument, Scanned(LastN(Of(history, instrument), maxTicks), start, end), start, end)
    {
      var trades := Buffered(instrument);
      var totalValue, totalVolume := ScanTotals(trades, start, end);
      VwapIsAverage(instrument, Scanned(trades, start, end), start, end);
      r := if totalVolume == 0 then None
           else Some(Vwap(instrument, QuantizePrice(totalValue / totalVolume as real), totalVolume, start, end));
      if TimeOrdered(history) {
        OfOrdered(history, instrument);
        ScanIsFilter(trades, start, end);
      }
    }

    function VolumeSince(instrument: string, since: int): (v: int)
      requires Valid()
      reads this
      ensures v == Volume(Since(LastN(Of(history, instrument), maxTicks), since))
    {
      Volume(Since(Buffered(instrument), since))
    }

    method ResetDailyVolumes()
      requires Valid()
      modifies this`daily, this`dayStart
      ensures Valid() && dayStart == |history|
    {
      daily := map[];
      dayStart := |history|;
      assert history[dayStart..] == [];
    }
  }
}
