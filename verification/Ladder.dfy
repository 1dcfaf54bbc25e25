/** One side of the book: a dictionary from price to quantity, the sorted
    listing a taker walks, and the greedy walk itself.

    Prices are counted in ticks: key k stands for the price k * tick_size. */
module Ladder {
  import opened Market
  import opened Rounding

  /** A resting level, or a fill taken from one. */
  datatype Level = Level(price: int, quantity: int)

  type Depth = map<int, int>

  /** Prices in the order a taker likes them: a buyer the low ones, a seller the high ones. */
  function Rank(side: Side, price: int): int {
    if side.Buy? then price else -price
  }

  /** Whether a taker with this limit accepts a level at this price; a market order has no limit. */
  predicate Reaches(side: Side, limit: Option<int>, price: int) {
    limit.Some? ==> Rank(side, price) <= Rank(side, limit.value)
  }

  // ---------------------------------------------------------------------
  // Sorted listings
  // ---------------------------------------------------------------------

  /** Every level is strictly less attractive than `floor`. */
  ghost predicate Above(side: Side, floor: int, levels: seq<Level>) {
    forall i :: 0 <= i < |levels| ==> floor < Rank(side, levels[i].price)
  }

  /** Strictly sorted by rank. */
  ghost predicate Ordered(side: Side, levels: seq<Level>) {
    levels != [] ==> Above(side, Rank(side, levels[0].price), levels[1..]) && Ordered(side, levels[1..])
  }

  ghost predicate AllPositive(levels: seq<Level>) {
    forall i :: 0 <= i < |levels| ==> levels[i].quantity > 0
  }

  ghost predicate PositiveDepth(book: Depth) {
    forall p :: p in book ==> book[p] > 0
  }

  /** max() or min() of the dictionary's keys. */
  function Best(side: Side, prices: set<int>): (b: int)
    requires prices != {}
    ensures b in prices && forall p :: p in prices ==> Rank(side, b) <= Rank(side, p)
  {
    BestExists(side, prices);
    var b :| b in prices && forall p :: p in prices ==> Rank(side, b) <= Rank(side, p);
    b
  }

  lemma {:induction false} BestExists(side: Side, prices: set<int>)
    requires prices != {}
    ensures exists b :: b in prices && forall p :: p in prices ==> Rank(side, b) <= Rank(side, p)
  {
    if forall q :: q !in prices {
      assert false;
    }
    var q :| q in prices;
    var rest := prices - {q};
    if rest == {} {
      assert prices == {q};
    } else {
      BestExists(side, rest);
      var b :| b in rest && forall p :: p in rest ==> Rank(side, b) <= Rank(side, p);
      var c := if Rank(side, q) < Rank(side, b) then q else b;
      assert forall p :: p in prices ==> p == q || p in rest;
      assert c in prices && forall p :: p in prices ==> Rank(side, c) <= Rank(side, p);
    }
  }

  /** sorted(book.keys()), ascending for a buyer and descending for a seller, with the quantities. */
  function Listing(side: Side, book: Depth): (levels: seq<Level>)
    ensures |levels| == |book|
    decreases |book|
  {
    if |book| == 0 then []
    else
      var b := Best(side, book.Keys);
      assert (book - {b}).Keys == book.Keys - {b};
      [Level(b, book[b])] + Listing(side, book - {b})
  }

  /** The dictionary a listing describes. */
  function FromListing(levels: seq<Level>): Depth {
    if levels == [] then map[] else FromListing(levels[1..])[levels[0].price := levels[0].quantity]
  }

  /** In an ordered listing every level is stored under its price. */
  lemma FromListingLookup(side: Side, levels: seq<Level>, i: nat)
    requires Ordered(side, levels) && i < |levels|
    ensures levels[i].price in FromListing(levels)
    ensures FromListing(levels)[levels[i].price] == levels[i].quantity
  {
    if i > 0 {
      FromListingLookup(side, levels[1..], i - 1);
      assert levels[1..][i - 1] == levels[i];
    }
  }

  lemma {:induction false} ListingMembers(side: Side, book: Depth)
    ensures forall i :: 0 <= i < |book| ==>
      var level := Listing(side, book)[i]; level.price in book && book[level.price] == level.quantity
    decreases |book|
  {
    if |book| != 0 {
      var b := Best(side, book.Keys);
      assert (book - {b}).Keys == book.Keys - {b};
      ListingMembers(side, book - {b});
    }
  }

  lemma {:induction false} ListingOrdered(side: Side, book: Depth)
    ensures Ordered(side, Listing(side, book))
    decreases |book|
  {
    if |book| != 0 {
      var b := Best(side, book.Keys);
      var rest := book - {b};
      assert rest.Keys == book.Keys - {b};
      ListingOrdered(side, rest);
      ListingMembers(side, rest);
      var tail := Listing(side, rest);
      forall i | 0 <= i < |tail| ensures Rank(side, b) < Rank(side, tail[i].price) {
        assert tail[i].price in book.Keys && tail[i].price != b;
      }
    }
  }

  lemma {:induction false} FromListingInverse(side: Side, book: Depth)
    ensures FromListing(Listing(side, book)) == book
    decreases |book|
  {
    if |book| != 0 {
      var b := Best(side, book.Keys);
      var rest := book - {b};
      assert rest.Keys == book.Keys - {b};
      FromListingInverse(side, rest);
      assert Listing(side, book)[1..] == Listing(side, rest);
      assert rest[b := book[b]] == book;
    }
  }

  lemma ListingIsFaithful(side: Side, book: Depth)
    ensures Ordered(side, Listing(side, book))
    ensures FromListing(Listing(side, book)) == book
    ensures PositiveDepth(book) ==> AllPositive(Listing(side, book))
  {
    ListingMembers(side, book);
    ListingOrdered(side, book);
    FromListingInverse(side, book);
  }

  lemma {:induction false} KeysAbove(side: Side, levels: seq<Level>, floor: int)
    requires Above(side, floor, levels)
    ensures forall p :: p in FromListing(levels) ==> floor < Rank(side, p)
  {
    if levels != [] {
      KeysAbove(side, levels[1..], floor);
    }
  }

  /** A sorted listing is determined by the dictionary it describes. */
  lemma {:induction false} ListingOfListing(side: Side, levels: seq<Level>)
    requires Ordered(side, levels)
    ensures Listing(side, FromListing(levels)) == levels
  {
    if levels != [] {
      var tail, top := levels[1..], levels[0].price;
      var book := FromListing(levels);
      ListingOfListing(side, tail);
      KeysAbove(side, tail, Rank(side, top));
      assert book - {top} == FromListing(tail);
      assert book.Keys == FromListing(tail).Keys + {top};
      assert Best(side, book.Keys) == top;
    }
  }

  // ---------------------------------------------------------------------
  // Totals
  // ---------------------------------------------------------------------

  /** sum(quantity) */
  function Units(levels: seq<Level>): int {
    if levels == [] then 0 else levels[0].quantity + Units(levels[1..])
  }

  /** sum(price * quantity), in ticks */
  function Value(levels: seq<Level>): int {
    if levels == [] then 0 else levels[0].price * levels[0].quantity + Value(levels[1..])
  }

  /** sum(book.values()) */
  function TotalDepth(side: Side, book: Depth): int {
    Units(Listing(side, book))
  }

  /** The sum does not depend on which level is counted first. */
  lemma {:induction false} DepthWithout(side: Side, book: Depth, p: int)
    requires p in book
    ensures TotalDepth(side, book) == book[p] + TotalDepth(side, book - {p})
    decreases |book|
  {
    var b := Best(side, book.Keys);
    ListingHead(side, book);
    if b != p {
      var rest, other := book - {b}, book - {p};
      assert rest.Keys == book.Keys - {b} && other.Keys == book.Keys - {p};
      assert rest - {p} == other - {b};
      DepthWithout(side, rest, p);
      BestStays(side, book.Keys, p);
      ListingHead(side, other);
    }
  }

  lemma BestStays(side: Side, prices: set<int>, p: int)
    requires p in prices && p != Best(side, prices)
    ensures prices - {p} != {} && Best(side, prices - {p}) == Best(side, prices)
  {
    assert Best(side, prices) in prices - {p};
  }

  lemma ListingHead(side: Side, book: Depth)
    requires book.Keys != {}
    ensures var b := Best(side, book.Keys); TotalDepth(side, book) == book[b] + TotalDepth(side, book - {b})
  {
    var b := Best(side, book.Keys);
    assert (book - {b}).Keys == book.Keys - {b};
    assert |book| == |book.Keys|;
    assert Listing(side, book)[1..] == Listing(side, book - {b});
  }

  /** Nor on the side it is listed for. */
  lemma {:induction false} DepthIsSideless(book: Depth)
    ensures TotalDepth(Buy, book) == TotalDepth(Sell, book)
    decreases |book|
  {
    if |book| != 0 {
      assert |book| == |book.Keys|;
      var b := Best(Buy, book.Keys);
      assert (book - {b}).Keys == book.Keys - {b};
      DepthWithout(Buy, book, b);
      DepthWithout(Sell, book, b);
      DepthIsSideless(book - {b});
    }
  }

  /** The levels a limit order may take from. */
  function Within(side: Side, limit: Option<int>, levels: seq<Level>): seq<Level> {
    if levels == [] || !Reaches(side, limit, levels[0].price) then []
    else [levels[0]] + Within(side, limit, levels[1..])
  }

  lemma UnitsNonNegative(levels: seq<Level>)
    requires AllPositive(levels)
    ensures Units(levels) >= |levels|
  {
    if levels != [] {
      UnitsNonNegative(levels[1..]);
    }
  }

  // ---------------------------------------------------------------------
  // The greedy walk
  // ---------------------------------------------------------------------

  datatype Sweep = Sweep(fills: seq<Level>, rest: seq<Level>, remaining: int)

  /** Walk the listing, taking min(remaining, available) from each level until the
      order is satisfied, the limit is passed or the listing ends. */
  function Walk(side: Side, limit: Option<int>, levels: seq<Level>, quantity: int): Sweep {
    if levels == [] || quantity <= 0 || !Reaches(side, limit, levels[0].price) then
      Sweep([], levels, quantity)
    else
      var taken := Min(quantity, levels[0].quantity);
      var fill := Level(levels[0].price, taken);
      if levels[0].quantity - taken <= 0 then
        var w := Walk(side, limit, levels[1..], quantity - taken);
        Sweep([fill] + w.fills, w.rest, w.remaining)
      else
        Sweep([fill], [levels[0].(quantity := levels[0].quantity - taken)] + levels[1..], 0)
  }

  /** Whatever the levels hold, nothing is created or lost: the fills and what
      stays on the ladder add up to the old ladder, in units and in value, and the
      fills and the unfilled remainder add up to the order. */
  lemma {:induction false} WalkConserves(side: Side, limit: Option<int>, levels: seq<Level>, quantity: int)
    ensures var w := Walk(side, limit, levels, quantity);
      && Units(w.fills) + Units(w.rest) == Units(levels)
      && Value(w.fills) + Value(w.rest) == Value(levels)
      && Units(w.fills) + w.remaining == quantity
  {
    if levels != [] && quantity > 0 && Reaches(side, limit, levels[0].price) {
      var taken := Min(quantity, levels[0].quantity);
      if levels[0].quantity - taken <= 0 {
        WalkConserves(side, limit, levels[1..], quantity - taken);
        assert Walk(side, limit, levels, quantity).fills[1..]
            == Walk(side, limit, levels[1..], quantity - taken).fills;
      } else {
        SplitLevel(levels, taken);
      }
    }
  }

  /** Taking part of the first level splits its units and its value. */
  lemma SplitLevel(levels: seq<Level>, taken: int)
    requires levels != []
    ensures var fills, rest := [Level(levels[0].price, taken)], [levels[0].(quantity := levels[0].quantity - taken)] + levels[1..];
      && Units(fills) == taken && Units(fills) + Units(rest) == Units(levels)
      && Value(fills) + Value(rest) == Value(levels)
  {
    var fills, rest := [Level(levels[0].price, taken)], [levels[0].(quantity := levels[0].quantity - taken)] + levels[1..];
    assert rest[1..] == levels[1..] && fills[1..] == [];
    assert levels[0].price * levels[0].quantity
        == levels[0].price * taken + levels[0].price * (levels[0].quantity - taken);
  }

  /** Each fill is taken from the next level of the listing, at its price and from its quantity. */
  lemma {:induction false} FillsAreLevels(side: Side, limit: Option<int>, levels: seq<Level>, quantity: int)
    ensures var fills := Walk(side, limit, levels, quantity).fills;
      && |fills| <= |levels|
      && forall i :: 0 <= i < |fills| ==> fills[i].price == levels[i].price && fills[i].quantity <= levels[i].quantity
  {
    if levels != [] && quantity > 0 && Reaches(side, limit, levels[0].price) {
      FillsAreLevels(side, limit, levels[1..], quantity - Min(quantity, levels[0].quantity));
    }
  }

  /** Fills and surviving levels lie at prices of the ladder. */
  lemma {:induction false} WalkStaysOnLadder(side: Side, limit: Option<int>, levels: seq<Level>, quantity: int)
    ensures var w := Walk(side, limit, levels, quantity);
      && (forall i :: 0 <= i < |w.fills| ==> w.fills[i].price in FromListing(levels))
      && FromListing(w.rest).Keys <= FromListing(levels).Keys
  {
    if levels == [] || quantity <= 0 || !Reaches(side, limit, levels[0].price) {
    } else {
      var taken := Min(quantity, levels[0].quantity);
      if levels[0].quantity - taken <= 0 {
        WalkStaysOnLadder(side, limit, levels[1..], quantity - taken);
      } else {
        assert Walk(side, limit, levels, quantity).rest[1..] == levels[1..];
      }
    }
  }

  lemma {:induction false} WalkStaysAbove(
      side: Side, limit: Option<int>, levels: seq<Level>, quantity: int, floor: int)
    requires Above(side, floor, levels)
    ensures var w := Walk(side, limit, levels, quantity); Above(side, floor, w.fills) && Above(side, floor, w.rest)
  {
    if levels == [] || quantity <= 0 || !Reaches(side, limit, levels[0].price) {
    } else {
      var taken := Min(quantity, levels[0].quantity);
      if levels[0].quantity - taken <= 0 {
        WalkStaysAbove(side, limit, levels[1..], quantity - taken, floor);
      } else {
        var w := Walk(side, limit, levels, quantity);
        assert forall i :: 0 <= i < |w.rest| ==> w.rest[i].price == levels[i].price;
      }
    }
  }

  /** Fills and surviving levels stay in order, and stay positive if the ladder was. */
  lemma {:induction false} WalkKeepsOrder(side: Side, limit: Option<int>, levels: seq<Level>, quantity: int)
    requires Ordered(side, levels)
    ensures var w := Walk(side, limit, levels, quantity); Ordered(side, w.fills) && Ordered(side, w.rest)
  {
    if levels == [] || quantity <= 0 || !Reaches(side, limit, levels[0].price) {
    } else {
      var taken := Min(quantity, levels[0].quantity);
      var w := Walk(side, limit, levels, quantity);
      if levels[0].quantity - taken <= 0 {
        WalkKeepsOrder(side, limit, levels[1..], quantity - taken);
        WalkStaysAbove(side, limit, levels[1..], quantity - taken, Rank(side, levels[0].price));
        assert w.fills[1..] == Walk(side, limit, levels[1..], quantity - taken).fills;
      } else {
        assert w.rest[1..] == levels[1..] && w.fills[1..] == [];
      }
    }
  }

  lemma {:induction false} WalkKeepsPositive(side: Side, limit: Option<int>, levels: seq<Level>, quantity: int)
    requires AllPositive(levels)
    ensures var w := Walk(side, limit, levels, quantity); AllPositive(w.fills) && AllPositive(w.rest)
  {
    if levels == [] || quantity <= 0 || !Reaches(side, limit, levels[0].price) {
    } else {
      var taken := Min(quantity, levels[0].quantity);
      if levels[0].quantity - taken <= 0 {
        WalkKeepsPositive(side, limit, levels[1..], quantity - taken);
      }
    }
  }

  ghost predicate AllWithin(side: Side, limit: Option<int>, fills: seq<Level>) {
    forall i :: 0 <= i < |fills| ==> Reaches(side, limit, fills[i].price)
  }

  /** No fill is outside the limit. */
  lemma {:induction false} WalkRespectsLimit(side: Side, limit: Option<int>, levels: seq<Level>, quantity: int)
    ensures AllWithin(side, limit, Walk(side, limit, levels, quantity).fills)
  {
    if levels == [] || quantity <= 0 || !Reaches(side, limit, levels[0].price) {
    } else {
      var taken := Min(quantity, levels[0].quantity);
      if levels[0].quantity - taken <= 0 {
        WalkRespectsLimit(side, limit, levels[1..], quantity - taken);
        var fills, later := Walk(side, limit, levels, quantity).fills, Walk(side, limit, levels[1..], quantity - taken).fills;
        forall i | 0 <= i < |fills| ensures Reaches(side, limit, fills[i].price) {
          if i > 0 {
            assert fills[i] == later[i - 1];
          }
        }
      }
    }
  }

  /** An order left with a remainder has emptied every level it reaches. */
  lemma {:induction false} WalkExhausts(side: Side, limit: Option<int>, levels: seq<Level>, quantity: int)
    requires Ordered(side, levels)
    requires Walk(side, limit, levels, quantity).remaining > 0
    ensures var rest := Walk(side, limit, levels, quantity).rest;
      forall i :: 0 <= i < |rest| ==> !Reaches(side, limit, rest[i].price)
  {
    if levels == [] || quantity <= 0 {
    } else if !Reaches(side, limit, levels[0].price) {
      assert forall i :: 1 <= i < |levels| ==> levels[i] == levels[1..][i - 1];
    } else {
      WalkExhausts(side, limit, levels[1..], quantity - Min(quantity, levels[0].quantity));
    }
  }

  /** On positive levels the walk fills exactly min(quantity, depth within the limit). */
  lemma {:induction false} WalkFillsWhatItCan(side: Side, limit: Option<int>, levels: seq<Level>, quantity: int)
    requires AllPositive(levels)
    ensures Units(Walk(side, limit, levels, quantity).fills)
         == Max(0, Min(quantity, Units(Within(side, limit, levels))))
  {
    WithinPositive(side, limit, levels);
    if levels == [] || quantity <= 0 || !Reaches(side, limit, levels[0].price) {
    } else {
      var taken := Min(quantity, levels[0].quantity);
      var w := Walk(side, limit, levels, quantity);
      WithinPositive(side, limit, levels[1..]);
      assert Within(side, limit, levels)[1..] == Within(side, limit, levels[1..]);
      if levels[0].quantity - taken <= 0 {
        WalkFillsWhatItCan(side, limit, levels[1..], quantity - taken);
        assert w.fills[1..] == Walk(side, limit, levels[1..], quantity - taken).fills;
      } else {
        assert w.fills[1..] == [];
      }
    }
  }

  lemma WithinPositive(side: Side, limit: Option<int>, levels: seq<Level>)
    requires AllPositive(levels)
    ensures Units(Within(side, limit, levels)) >= 0
  {
    if levels != [] && Reaches(side, limit, levels[0].price) {
      WithinPositive(side, limit, levels[1..]);
      assert Within(side, limit, levels)[1..] == Within(side, limit, levels[1..]);
    }
  }

  lemma WithinUnlimited(side: Side, levels: seq<Level>)
    ensures Within(side, None, levels) == levels
  {
    if levels != [] {
      WithinUnlimited(side, levels[1..]);
    }
  }

  /** Two orders in a row leave the ladder, and cost in total, what one order
      for the sum does. */
  lemma {:induction false} WalkComposes(side: Side, limit: Option<int>, levels: seq<Level>, q1: nat, q2: nat)
    requires AllPositive(levels)
    ensures var first := Walk(side, limit, levels, q1);
      var second := Walk(side, limit, first.rest, q2);
      var whole := Walk(side, limit, levels, q1 + q2);
      && second.rest == whole.rest
      && Units(first.fills) + Units(second.fills) == Units(whole.fills)
      && Value(first.fills) + Value(second.fills) == Value(whole.fills)
  {
    var first := Walk(side, limit, levels, q1);
    var second := Walk(side, limit, first.rest, q2);
    var whole := Walk(side, limit, levels, q1 + q2);
    assert second.rest == whole.rest by { RestComposes(side, limit, levels, q1, q2); }
    WalkConserves(side, limit, levels, q1);
    WalkConserves(side, limit, first.rest, q2);
    WalkConserves(side, limit, levels, q1 + q2);
  }

  lemma {:induction false} RestComposes(side: Side, limit: Option<int>, levels: seq<Level>, q1: nat, q2: nat)
    requires AllPositive(levels)
    ensures Walk(side, limit, Walk(side, limit, levels, q1).rest, q2).rest == Walk(side, limit, levels, q1 + q2).rest
  {
    if levels != [] && q1 > 0 && Reaches(side, limit, levels[0].price) && levels[0].quantity <= q1 {
      RestComposes(side, limit, levels[1..], q1 - levels[0].quantity, q2);
      RestAfterHead(side, limit, levels, q1);
      RestAfterHead(side, limit, levels, q1 + q2);
      assert q1 - levels[0].quantity + q2 == q1 + q2 - levels[0].quantity;
    } else {
      RestOfPartialWalk(side, limit, levels, q1, q2);
    }
  }

  lemma RestAfterHead(side: Side, limit: Option<int>, levels: seq<Level>, quantity: nat)
    requires levels != [] && quantity > 0 && Reaches(side, limit, levels[0].price) && levels[0].quantity <= quantity
    ensures Walk(side, limit, levels, quantity).rest == Walk(side, limit, levels[1..], quantity - levels[0].quantity).rest
  {
  }

  lemma RestOfPartialWalk(side: Side, limit: Option<int>, levels: seq<Level>, q1: nat, q2: nat)
    requires AllPositive(levels)
    requires levels == [] || q1 == 0 || !Reaches(side, limit, levels[0].price) || q1 < levels[0].quantity
    ensures Walk(side, limit, Walk(side, limit, levels, q1).rest, q2).rest == Walk(side, limit, levels, q1 + q2).rest
  {
    if levels != [] && q1 > 0 && Reaches(side, limit, levels[0].price) {
      var left := Walk(side, limit, levels, q1).rest;
      assert left[1..] == levels[1..];
      assert left[0] == Level(levels[0].price, levels[0].quantity - q1);
      if q2 < left[0].quantity {
        assert Walk(side, limit, levels, q1 + q2).rest[1..] == levels[1..];
      }
    }
  }

  // ---------------------------------------------------------------------
  // Greedy is optimal
  // ---------------------------------------------------------------------

  /** Another way of taking units from the same levels. */
  ghost predicate Allocation(levels: seq<Level>, choice: seq<Level>) {
    && |choice| == |levels|
    && forall i :: 0 <= i < |levels| ==>
         choice[i].price == levels[i].price && 0 <= choice[i].quantity <= levels[i].quantity
  }

  /** What the taker minimises: money paid for a buy, minus the money received for a sell. */
  function Outlay(side: Side, fills: seq<Level>): int {
    if side.Buy? then Value(fills) else -Value(fills)
  }

  lemma AllocationTail(levels: seq<Level>, choice: seq<Level>)
    requires Allocation(levels, choice) && levels != []
    ensures Allocation(levels[1..], choice[1..])
    ensures choice[0].price == levels[0].price && choice[0].quantity <= levels[0].quantity
    ensures Units(choice) == choice[0].quantity + Units(choice[1..]) && Units(choice[1..]) >= 0
  {
    AllocationUnits(levels[1..], choice[1..]);
  }

  lemma OrderedTail(side: Side, levels: seq<Level>)
    requires Ordered(side, levels) && levels != []
    ensures Ordered(side, levels[1..])
    ensures forall i :: 0 <= i < |levels[1..]| ==> Rank(side, levels[0].price) <= Rank(side, levels[1..][i].price)
  {
  }

  lemma AllocationUnits(levels: seq<Level>, choice: seq<Level>)
    requires Allocation(levels, choice)
    ensures Units(choice) >= 0
  {
    if levels != [] {
      AllocationUnits(levels[1..], choice[1..]);
    }
  }

  /** Every unit taken costs at least the best rank on offer. */
  lemma {:induction false} OutlayAtLeast(side: Side, levels: seq<Level>, choice: seq<Level>, floor: int)
    requires Allocation(levels, choice)
    requires forall i :: 0 <= i < |levels| ==> floor <= Rank(side, levels[i].price)
    ensures Outlay(side, choice) >= floor * Units(choice)
  {
    if levels != [] {
      OutlayAtLeast(side, levels[1..], choice[1..], floor);
      var q, r := choice[0].quantity, Rank(side, choice[0].price);
      MulMonotone(floor, r, q);
      assert floor * Units(choice) == floor * q + floor * Units(choice[1..]);
      assert Outlay(side, choice) == r * q + Outlay(side, choice[1..]);
    }
  }

  lemma MulMonotone(a: int, b: int, q: int)
    requires a <= b && 0 <= q
    ensures a * q <= b * q
  {
  }

  /** The exchange argument: a choice of at least as many units pays at least the
      greedy outlay, plus the best rank for every extra unit. */
  lemma {:induction false} GreedyAgainst(
      side: Side, limit: Option<int>, levels: seq<Level>, quantity: int, choice: seq<Level>, floor: int)
    requires Ordered(side, levels) && Allocation(levels, choice)
    requires forall i :: 0 <= i < |levels| ==> floor <= Rank(side, levels[i].price)
    requires Units(choice) >= Units(Walk(side, limit, levels, quantity).fills)
    ensures var greedy := Walk(side, limit, levels, quantity).fills;
      Outlay(side, choice) >= Outlay(side, greedy) + floor * (Units(choice) - Units(greedy))
  {
    if levels == [] || quantity <= 0 || !Reaches(side, limit, levels[0].price) {
      NothingTaken(side, limit, levels, quantity, choice, floor);
    } else {
      AllocationTail(levels, choice);
      OrderedTail(side, levels);
      GreedyHead(side, limit, levels, quantity, choice, floor);
      var best := Rank(side, levels[0].price);
      GreedyAgainst(side, limit, levels[1..], quantity - Min(quantity, levels[0].quantity), choice[1..], best);
    }
  }

  lemma NothingTaken(side: Side, limit: Option<int>, levels: seq<Level>, quantity: int, choice: seq<Level>, floor: int)
    requires Allocation(levels, choice)
    requires levels == [] || quantity <= 0 || !Reaches(side, limit, levels[0].price)
    requires forall i :: 0 <= i < |levels| ==> floor <= Rank(side, levels[i].price)
    ensures var greedy := Walk(side, limit, levels, quantity).fills;
      Outlay(side, choice) >= Outlay(side, greedy) + floor * (Units(choice) - Units(greedy))
  {
    OutlayAtLeast(side, levels, choice, floor);
  }

  /** The best level pays for itself: what holds of the other levels, with its rank as the
      floor, holds of all of them. */
  lemma GreedyHead(side: Side, limit: Option<int>, levels: seq<Level>, quantity: int, choice: seq<Level>, floor: int)
    requires Allocation(levels, choice) && levels != [] && floor <= Rank(side, levels[0].price)
    requires quantity > 0 && Reaches(side, limit, levels[0].price)
    requires Units(choice) >= Units(Walk(side, limit, levels, quantity).fills)
    ensures var best, taken := Rank(side, levels[0].price), Min(quantity, levels[0].quantity);
      var greedy, later := Walk(side, limit, levels, quantity).fills, Walk(side, limit, levels[1..], quantity - taken).fills;
      && Units(choice[1..]) >= Units(later)
      && (Outlay(side, choice[1..]) >= Outlay(side, later) + best * (Units(choice[1..]) - Units(later)) ==>
            Outlay(side, choice) >= Outlay(side, greedy) + floor * (Units(choice) - Units(greedy)))
  {
    var best, taken := Rank(side, levels[0].price), Min(quantity, levels[0].quantity);
    var later := Walk(side, limit, levels[1..], quantity - taken).fills;
    WalkHead(side, limit, levels, quantity);
    AllocationTail(levels, choice);
    OutlayOfHead(side, choice);
    if Outlay(side, choice[1..]) >= Outlay(side, later) + best * (Units(choice[1..]) - Units(later)) {
      ExchangeStep(
        floor, best, choice[0].quantity, taken, Units(choice[1..]), Units(later), Outlay(side, choice[1..]), Outlay(side, later));
    }
  }

  /** The walk's totals are the first fill's and those of the walk of the rest. */
  lemma WalkHead(side: Side, limit: Option<int>, levels: seq<Level>, quantity: int)
    requires levels != [] && quantity > 0 && Reaches(side, limit, levels[0].price)
    ensures var taken := Min(quantity, levels[0].quantity);
      var fills, later := Walk(side, limit, levels, quantity).fills, Walk(side, limit, levels[1..], quantity - taken).fills;
      && Units(fills) == taken + Units(later) && (Units(later) == 0 || taken == levels[0].quantity)
      && Outlay(side, fills) == Rank(side, levels[0].price) * taken + Outlay(side, later)
  {
    var taken := Min(quantity, levels[0].quantity);
    var fills, later := Walk(side, limit, levels, quantity).fills, Walk(side, limit, levels[1..], quantity - taken).fills;
    assert fills == [Level(levels[0].price, taken)] + later;
    OutlayOfHead(side, fills);
    assert fills[1..] == later;
  }

  lemma OutlayOfHead(side: Side, fills: seq<Level>)
    requires fills != []
    ensures Outlay(side, fills) == Rank(side, fills[0].price) * fills[0].quantity + Outlay(side, fills[1..])
  {
  }

  lemma ExchangeStep(
      floor: int, best: int, mine: int, taken: int, othersMine: int, othersTaken: int, outlayMine: int, outlayTaken: int)
    requires floor <= best && mine + othersMine >= taken + othersTaken
    requires outlayMine >= outlayTaken + best * (othersMine - othersTaken)
    ensures best * mine + outlayMine
         >= best * taken + outlayTaken + floor * (mine + othersMine - (taken + othersTaken))
  {
    var extra := mine + othersMine - (taken + othersTaken);
    MulMonotone(floor, best, extra);
    assert best * mine + best * (othersMine - othersTaken) == best * taken + best * extra;
  }

  /** No other way of taking the same number of units from the ladder costs a
      buyer less or pays a seller more than the walk does. `choice` gives the units
      taken at each price of the ladder, zero included. */
  lemma GreedyIsOptimal(side: Side, limit: Option<int>, book: Depth, quantity: int, choice: Depth)
    requires PositiveDepth(book)
    requires choice.Keys == book.Keys
    requires forall p :: p in book ==> 0 <= choice[p] <= book[p]
    requires Units(Listing(side, choice)) == Units(Walk(side, limit, Listing(side, book), quantity).fills)
    ensures var greedy := Walk(side, limit, Listing(side, book), quantity).fills;
      && (side.Buy? ==> Value(greedy) <= Value(Listing(side, choice)))
      && (side.Sell? ==> Value(greedy) >= Value(Listing(side, choice)))
  {
    var levels, chosen := Listing(side, book), Listing(side, choice);
    ListingIsFaithful(side, book);
    ListingsAlign(side, book, choice);
    var floor := if levels == [] then 0 else Rank(side, levels[0].price);
    GreedyAgainst(side, limit, levels, quantity, chosen, floor);
  }

  lemma {:induction false} ListingsAlign(side: Side, book: Depth, choice: Depth)
    requires choice.Keys == book.Keys
    requires forall p :: p in book ==> 0 <= choice[p] <= book[p]
    ensures Allocation(Listing(side, book), Listing(side, choice))
    decreases |book|
  {
    if |book| != 0 {
      assert |choice.Keys| == |book.Keys|;
      var b := Best(side, book.Keys);
      assert (book - {b}).Keys == book.Keys - {b} == (choice - {b}).Keys;
      ListingsAlign(side, book - {b}, choice - {b});
    } else {
      assert book.Keys == {};
      assert |choice.Keys| == 0;
    }
  }
}
