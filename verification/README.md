# Verified model of the mock exchange and the platform's shared protocols

This Dafny project models the parts of the repository whose behaviour is hardest to
see from one function body, and proves what they guarantee:

- the mock exchange's simulated order book, the ambient flow that drives it, the trade
  tape that records it, and the pricing of fills made on it;
- four protocols whose steps interleave: the circuit breaker, the idempotency
  middleware, the authorization check caches and the scenario engine;
- the search for the next market opening, the reconciliation views of the fund
  administrator and the broker, and the names that lead from a fund slug to its
  schema, its CDC topics and back.

`dafny verify dfyconfig.toml` checks the whole project.

| file | models |
|---|---|
| `Market.dfy`, `Rounding.dfy`, `Selection.dfy` | shared values; ROUND_HALF_UP (ties away from zero) and half-even rounding; what a filter keeps |
| `Ladder.dfy` | one side of the book as a dictionary, its sorted listing and the greedy walk |
| `OrderBook.dfy`, `BookLaws.dfy` | the book object and its operations; their laws, per operation and over runs |
| `TradeTape.dfy`, `AmbientFlow.dfy`, `Execution.dfy` | the tape, ambient orders, fill pricing |
| `CircuitBreaker.dfy` | the three-state breaker under overlapping calls |
| `Idempotency.dfy`, `ResponseCapture.dfy` | the idempotency protocol over Redis; capture and replay of responses |
| `AccessCache.dfy` | the per-request and global caches of authorization checks |
| `ScenarioEngine.dfy` | load, start, stop, reset and any number of phase tasks |
| `TradingHours.dfy`, `Reconciliation.dfy`, `FundTopics.dfy` | next opening; positions, cash and NAV; slugs, schemas and topics |

Objects whose methods update their fields are classes, each proved against functions on
a value of its state; the laws are lemmas about those functions. Protocols are state
machines over their atomic steps (the code between two awaits), and a run is any
sequence of enabled steps. Loops of the source are loops here.

## How the source is read

- Ladder keys count ticks: key k is the price `k * tick_size`. This loses nothing because
  every key comes out of `_round_price`. Prices, quantities of fills, floats and clock
  readings are exact reals; Decimal's 28-digit context and binary floating point are not
  modelled.
- A side is buy or anything else wherever the source compares with "buy" only.
  Reconciliation keeps the string, because positions compare with "sell" and cash with "buy".
- Random draws are nondeterministic choices within the drawn range, so contracts hold for
  every draw. Clocks, timestamps and Redis expiry are parameters or clock steps.

Properties that do not hold as one might expect, with the exact condition under which they do:

- Two roundings of the quotes give back the rounded spread unless the unrounded quotes are
  ties on opposite sides of zero (`BookLaws.RecentreSpread`); a recentre uncrosses and
  separates the book exactly when the rounded spread is not negative
  (`BookLaws.RecentreUncrossedIff`, `BookLaws.RecentreSeparatesIff`).
- A limit order keeps bids and asks on their sides of the rounded mid exactly when nothing
  of it is left to rest or its rounded limit is on its own side (`BookLaws.LimitSeparatesIff`).
- Resting liquidity is not checked against the other side and keeps the book strictly
  uncrossed exactly when its rounded price is inside the spread
  (`BookLaws.LiquidityUncrossedIff`; `BookLaws.AmbientOrderCanCross` is a run that crosses it).
- The early-exit VWAP scan misses trades exactly when a trade of the period is recorded
  behind one that stops the scan (`TradeTape.ScanIsFilterIff`), and no period has such a
  trade exactly when the tape is in time order (`TradeTape.OrderedIffScansAgree`).
- The idempotency cache is not read again after the lock is acquired. With a response
  cached, another handler can still start exactly when some request has already missed the
  cache and no crashed holder's lock outlasts the response (`Idempotency.NewRunPossibleIff`;
  `Idempotency.SecondRunAfterSuccess` is such a run).
- A second request joins a handler in flight exactly when the lock TTL has passed since
  the first acquired the lock (`Idempotency.SecondJoinsIff`), and a run keeps exclusion
  throughout exactly when nobody acquires the lock a TTL or more after a request still in
  flight acquired it (`Idempotency.ExclusionIff`; `Idempotency.SlowHandlerLosesExclusion` is
  a run in which somebody does).
- HALF_OPEN lets any number of calls through, while the comment in circuit_breaker.py
  speaks of a single probe; the code is followed (`CircuitBreaker.HalfOpenAdmitsAll`). A
  rejected caller that waits its retry_after is admitted exactly when every opening since
  is a recovery timeout old (`CircuitBreaker.RetryAfterHonouredIff`).
- Whether the authorization cache can be wrong is a matter of timing alone. Call two runs
  the same schedule when they differ only in which keys the backend allows. A check's answer,
  from whichever layer it comes, is wrong in some run of the schedule exactly when a change
  has reached the backend since it was fetched (`AccessCache.AnswerCanBeWrongIff`), and so is
  what a check stores, even after a write's clear (`AccessCache.StaleStoreIff`). A schedule
  keeps the cache in agreement at every moment with no write between its change and its
  clear, whatever is allowed, exactly when nothing cached or waiting is older than a change at
  any of those moments (`AccessCache.AgreementIff`; `AccessCache.OverlapCanLeaveStaleEntry`
  is a run that ends with a wrong entry).
- A check inside a request can end up disagreeing with another answer of the request
  exactly when the request has a check of the same key pending that may still bring another
  answer (`AccessCache.MissCanDisagreeIff`, `AccessCache.HitCanDisagreeIff`;
  `AccessCache.ParallelChecksCanDisagree` is such a run).
- A started scenario keeps the engine running for as long as its task lives, in every
  order of wakes, exactly when no earlier task was left at the start
  (`ScenarioEngine.StartUndisturbedIff`).
- The slug pattern accepts one trailing newline, and then the slug does not survive the
  round trip (`FundTopics.SlugRoundTripIff`). The docstring of `fund_schema_name` gives
  `fund_alpha` as the schema of `fund-alpha`; the code gives `fund_fund_alpha`, and is followed.
- An order whose side is neither "buy" nor "sell" is long in positions but received in
  cash, so trading it at its mark changes the NAV (`Reconciliation.TradeAtMarkKeepsNavIff`).

## Model

| member | source | states |
|---|---|---|
| Rounding.RoundingMonotone | mock-exchange/mock_exchange/market_data/order_book.py:226-230 | rounding to ticks (half up) and to four places (half even) preserves order |
| Rounding.RoundHalfUpIff | mock-exchange/mock_exchange/market_data/order_book.py:226-230 | half-up rounding gives the nearest integer and, of two equally near, the one further from zero, and no other |
| Rounding.RoundHalfEvenIff | mock-exchange/mock_exchange/market_data/trade_tape.py:92-95 | half-even rounding gives the nearest integer and, of two equally near, the even one, and no other |
| Rounding.RoundHalfUpShift | mock-exchange/mock_exchange/market_data/order_book.py:226-230 | half-up rounding commutes with every integer shift, except that a tie carried across zero moves one further |
| Ladder.ListingIsFaithful | mock-exchange/mock_exchange/market_data/order_book.py:114-115 | the listing of a dictionary is strictly sorted and describes exactly that dictionary |
| Ladder.ListingOfListing | mock-exchange/mock_exchange/market_data/order_book.py:114-115 | a sorted listing is recovered from the dictionary it describes |
| Ladder.WalkConserves | mock-exchange/mock_exchange/market_data/order_book.py:117-136 | for any levels and quantity, fills plus what is left equal the old ladder in units and value, and fills plus remainder equal the order |
| Ladder.DepthWithout | mock-exchange/mock_exchange/market_data/order_book.py:215-219 | a ladder's total depth is any one level plus the depth of the rest |
| Ladder.DepthIsSideless | mock-exchange/mock_exchange/market_data/order_book.py:215-219 | total depth does not depend on the order in which levels are listed |
| Ladder.WalkKeepsOrder | mock-exchange/mock_exchange/market_data/order_book.py:117-136 | fills and remaining levels stay strictly sorted |
| Ladder.WalkRespectsLimit | mock-exchange/mock_exchange/market_data/order_book.py:158-160 | no fill is outside the limit, for either side |
| Ladder.WalkExhausts | mock-exchange/mock_exchange/market_data/order_book.py:158-175 | an order left with a remainder has emptied every level within its limit |
| Ladder.WalkFillsWhatItCan | mock-exchange/mock_exchange/market_data/order_book.py:117-136 | on positive levels exactly min(quantity, depth within the limit) is filled |
| Ladder.FillsAreLevels | mock-exchange/mock_exchange/market_data/order_book.py:117-136 | each fill comes from the next level of the listing, at its price and from its quantity |
| Ladder.WalkComposes | mock-exchange/mock_exchange/market_data/order_book.py:117-136 | q1 then q2 leaves the same levels and trades the same units and value as q1 + q2 |
| Ladder.GreedyAgainst | mock-exchange/mock_exchange/market_data/order_book.py:117-136 | any allocation of at least as many units costs at least the greedy outlay plus the best rank per extra unit |
| Ladder.GreedyIsOptimal | mock-exchange/mock_exchange/market_data/order_book.py:104-138 | no other way of taking the same units from the ladder costs a buyer less or pays a seller more |
| OrderBook.WalkListing | mock-exchange/mock_exchange/market_data/order_book.py:117-136 | the loop that decrements and deletes levels leaves the dictionary of the walk's rest and yields the walk's fills |
| OrderBook.WalkBook | mock-exchange/mock_exchange/market_data/order_book.py:155-196 | the same from the dictionary alone, with its sorted snapshot |
| OrderBook.SimulatedOrderBook.constructor | mock-exchange/mock_exchange/market_data/order_book.py:25-46 | an empty book at mid 100 with the base depth derived from volume |
| OrderBook.SimulatedOrderBook.SetSpreadMultiplier | mock-exchange/mock_exchange/market_data/order_book.py:68-70 | only the multiplier changes, to at least one half |
| OrderBook.SimulatedOrderBook.UpdateMid | mock-exchange/mock_exchange/market_data/order_book.py:72-96 | the new state is the recentred book, whose quotes BookLaws.RecentredAroundMid places |
| OrderBook.SimulatedOrderBook.AddLiquidity | mock-exchange/mock_exchange/market_data/order_book.py:98-102 | quantity is added at the rounded price on the order's side and nothing else changes |
| OrderBook.SimulatedOrderBook.ExecuteMarketOrder | mock-exchange/mock_exchange/market_data/order_book.py:104-138 | the facing ladder becomes the walk's rest and the ticks are the walk's fills at their prices |
| OrderBook.SimulatedOrderBook.ExecuteLimitOrder | mock-exchange/mock_exchange/market_data/order_book.py:140-202 | the same within the rounded limit, with the remainder resting on the order's side |
| BookLaws.MarketOrderFills | mock-exchange/mock_exchange/market_data/order_book.py:104-138 | a market order fills exactly min(quantity, depth), takes that from the facing ladder and leaves the other untouched |
| BookLaws.MarketOrdersCompose | mock-exchange/mock_exchange/market_data/order_book.py:104-138 | two market orders leave the same book and trade the same money as one for the sum |
| BookLaws.MarketOrderIsOptimal | mock-exchange/mock_exchange/market_data/order_book.py:104-138 | a market buy pays no more, and a market sell receives no less, than any other choice of the same units |
| BookLaws.LimitOrderFills | mock-exchange/mock_exchange/market_data/order_book.py:140-202 | fills plus resting quantity equal the order, and every fill is at or inside the rounded limit |
| BookLaws.LimitOrderMovesDepth | mock-exchange/mock_exchange/market_data/order_book.py:140-202 | the fills leave the facing ladder, the rest joins the order's own ladder, at the rounded limit and nowhere else |
| BookLaws.LimitOrderKeepsBookUncrossed | mock-exchange/mock_exchange/market_data/order_book.py:140-202 | a limit order keeps a strictly uncrossed book strictly uncrossed |
| BookLaws.OrderKeepsPositive | mock-exchange/mock_exchange/market_data/order_book.py:104-202 | market and limit orders leave every level positive |
| BookLaws.LiquidityUncrossedIff | mock-exchange/mock_exchange/market_data/order_book.py:98-102 | added liquidity keeps the book strictly uncrossed exactly when its rounded price is inside the spread |
| BookLaws.AmbientOrderCanCross | mock-exchange/mock_exchange/market_data/ambient_flow.py:152-162 | a resting limit order followed by an ambient order can cross the book |
| BookLaws.RecentreSpread | mock-exchange/mock_exchange/market_data/order_book.py:74-79 | best ask minus best bid is the spread in ticks, if and only if the quotes are not ties on opposite sides of zero |
| BookLaws.SpreadIsBps | mock-exchange/mock_exchange/market_data/order_book.py:221-224 | the spread in ticks is mid times basis points times multiplier over 10000, in ticks, rounded to the nearest with ties away from zero |
| BookLaws.RecentredAroundMid | mock-exchange/mock_exchange/market_data/order_book.py:72-96 | the best prices of a recentred book lie half that exact spread either side of the mid within three quarters of a tick, and apart by it within half a tick, one and a half for opposite ties |
| BookLaws.RecentredLadders | mock-exchange/mock_exchange/market_data/order_book.py:81-96 | both new best prices are quoted, levels within 20 ticks keep their quantity and no others stay, at most 21 a side, a missing best price gets base depth, and positivity is kept |
| BookLaws.RecentreUncrossedIff | mock-exchange/mock_exchange/market_data/order_book.py:72-96 | a recentred book is uncrossed exactly for a spread of zero or more ticks, strictly for one or more |
| BookLaws.RecentreSeparatesIff | mock-exchange/mock_exchange/market_data/order_book.py:72-96 | bids and asks lie on their sides of the rounded mid exactly when the rounded spread is not negative |
| BookLaws.SpreadNotNegative | mock-exchange/mock_exchange/market_data/order_book.py:221-224 | non-negative mid, spread and multiplier give a rounded spread that is not negative; a corollary of the next row |
| BookLaws.SpreadSignIff | mock-exchange/mock_exchange/market_data/order_book.py:221-224 | the rounded spread is not negative exactly when the exact one is above minus half a tick, and at least a tick exactly when the exact one is at least half |
| BookLaws.LimitSeparatesIff | mock-exchange/mock_exchange/market_data/order_book.py:140-202 | on a sound book a limit order keeps bids and asks on their sides of the rounded mid if and only if nothing is left to rest or its rounded limit is on its own side |
| BookLaws.StepKeepsSound | mock-exchange/mock_exchange/market_data/order_book.py:68-202 | every recentre, multiplier change, ambient order, market order and limit order that does not rest beyond the mid keeps the sides separated and positive |
| BookLaws.RunKeepsSound | mock-exchange/mock_exchange/market_data/order_book.py:68-202 | over every run of these, bids are at or below the rounded mid, asks at or above it, and all quantities positive |
| BookLaws.StepKeepsTidy | mock-exchange/mock_exchange/market_data/order_book.py:68-202 | recentres with a spread of a tick, ambient orders inside the spread, market orders and limit orders keep the book strictly uncrossed and positive |
| BookLaws.RunKeepsTidy | mock-exchange/mock_exchange/market_data/order_book.py:68-202 | over every run of such operations the book stays strictly uncrossed and positive |
| TradeTape.ScanIsFilterIff | mock-exchange/mock_exchange/market_data/trade_tape.py:81-87 | the early-exit scan collects exactly the period's trades if and only if none lies behind a trade that stops it |
| TradeTape.ScanIsFilter | mock-exchange/mock_exchange/market_data/trade_tape.py:70-98 | in time order the scan equals the full filter |
| TradeTape.OrderedIffScansAgree | mock-exchange/mock_exchange/market_data/trade_tape.py:70-98 | a tape is in time order exactly when, for every period, the early-exit scan equals the full filter |
| TradeTape.ScanCanMiss | mock-exchange/mock_exchange/market_data/trade_tape.py:81-87 | out of order it can lose a trade |
| TradeTape.VolumeSinceAgrees | mock-exchange/mock_exchange/market_data/trade_tape.py:100-105 | with an end past the last trade the period's trades are those since its start |
| TradeTape.OfIsFilter | mock-exchange/mock_exchange/market_data/trade_tape.py:38-46 | an instrument's trades are exactly those of the history that are in it, in order |
| TradeTape.BetweenIsFilter | mock-exchange/mock_exchange/market_data/trade_tape.py:81-87 | a period's trades are exactly those made in it, both ends included, in order |
| TradeTape.SinceIsFilter | mock-exchange/mock_exchange/market_data/trade_tape.py:100-105 | the trades since an instant are exactly those made at it or later, in order |
| TradeTape.LastNIsNewest | mock-exchange/mock_exchange/market_data/trade_tape.py:38-46 | a bounded buffer holds the newest trades, as many as fit |
| TradeTape.QuantizeNear | mock-exchange/mock_exchange/market_data/trade_tape.py:92-95 | quantizing moves a price by at most half of the fourth place, and a tie to an even fourth place |
| TradeTape.VwapIsAverage | mock-exchange/mock_exchange/market_data/trade_tape.py:86-98 | there is an average exactly when there is volume, and times the volume it is the money traded to within 0.00005 a unit |
| TradeTape.ScanTotals | mock-exchange/mock_exchange/market_data/trade_tape.py:76-90 | the early-exit loop adds up exactly the notional and the volume of the scan |
| TradeTape.BufferStep | mock-exchange/mock_exchange/market_data/trade_tape.py:38-46 | recording a trade appends to one instrument's bounded buffer and evicts from its front |
| TradeTape.CounterStep | mock-exchange/mock_exchange/market_data/trade_tape.py:47 | recording a trade raises one instrument's counter by its quantity |
| TradeTape.Tape.constructor | mock-exchange/mock_exchange/market_data/trade_tape.py:29-42 | an empty tape |
| TradeTape.Tape.RecordTick | mock-exchange/mock_exchange/market_data/trade_tape.py:44-47 | buffers hold the last max_ticks trades of each instrument, and counters all volume since the reset, evicted trades included |
| TradeTape.Tape.RecordTicks | mock-exchange/mock_exchange/market_data/trade_tape.py:65-68 | the trades are recorded in order |
| TradeTape.Tape.VwapBetween | mock-exchange/mock_exchange/market_data/trade_tape.py:70-98 | the loop returns that average of the scan, which on a time-ordered tape is that of the full filter over the last max_ticks trades |
| TradeTape.Tape.VolumeSince | mock-exchange/mock_exchange/market_data/trade_tape.py:100-105 | the volume of the buffered trades since an instant, in terms of everything recorded |
| TradeTape.Tape.ResetDailyVolumes | mock-exchange/mock_exchange/market_data/trade_tape.py:127-129 | counting starts again; buffers are untouched |
| AmbientFlow.RunAppend | mock-exchange/mock_exchange/market_data/ambient_flow.py:136-191 | ambient operations extend a run of the book one at a time |
| AmbientFlow.TakeMovesDepth | mock-exchange/mock_exchange/market_data/ambient_flow.py:184-190 | a market order takes from the two ladders exactly what it fills |
| AmbientFlow.AmbientVolume | mock-exchange/mock_exchange/market_data/ambient_flow.py:184-189 | ambient trades count toward their own instrument only |
| AmbientFlow.AddRestingOrders | mock-exchange/mock_exchange/market_data/ambient_flow.py:136-162 | for every draw, a volume of zero or less does nothing, and any other adds five to ten bids and asks, a pair at each tick from the mid, of half to one and a half times the volume per level; the ladders gain exactly what is drawn |
| AmbientFlow.PairPrice | mock-exchange/mock_exchange/market_data/ambient_flow.py:147-162 | the i-th pair rests exactly i ticks either side of the rounded mid, except for a tie carried across zero |
| AmbientFlow.RestingAddsDepth | mock-exchange/mock_exchange/market_data/ambient_flow.py:136-162 | any run of resting orders deepens the two ladders by exactly its quantities |
| AmbientFlow.GenerateMarketTrades | mock-exchange/mock_exchange/market_data/ambient_flow.py:164-191 | for every draw, one to five market orders of at least a unit request exactly the target volume, and the daily counter rises by exactly the depth the two ladders lost |
| AmbientFlow.TradeAndRecord | mock-exchange/mock_exchange/market_data/ambient_flow.py:184-190 | one order's trades are recorded as made, flagged as ambient, and recorded volume plus depth is unchanged |
| AmbientFlow.GenerateForInstrument | mock-exchange/mock_exchange/market_data/ambient_flow.py:97-134 | while the exchange is open, eight tenths of the target are rested and then market orders request exactly the rest; recorded volume and depth together rise by what was rested, the daily counter by the depth taken and no other counter moves; a positive book stays positive and a sound one sound; otherwise nothing happens |
| Execution.TradeTotals | mock-exchange/mock_exchange/execution/engine.py:373-374 | the trades' notional and volume are the fills' value and units, scaled by the tick |
| Execution.TradesAreOffers | mock-exchange/mock_exchange/market_data/order_book.py:104-138 | every trade is at a price on the facing ladder, for no more than was offered there, with the order's side, instrument and moment |
| Execution.FillVwapIsAverage | mock-exchange/mock_exchange/execution/engine.py:372-375 | the price before markup times the units filled is the fills' money to within 0.00005 a unit |
| Execution.MarkupIsBps | mock-exchange/mock_exchange/execution/engine.py:377-391 | the markup moves the price by its ten-thousandths, up for a buy and down for a sell, to within 0.00005 |
| Execution.QuantizeFixesIff | mock-exchange/mock_exchange/execution/engine.py:375 | quantizing leaves a price alone exactly when it has at most four places |
| Execution.VwapWithinFills | mock-exchange/mock_exchange/execution/engine.py:372-375 | with ticks that are multiples of 0.0001 the rounded VWAP lies within the prices filled |
| Execution.LimitPriceHonoured | mock-exchange/mock_exchange/execution/engine.py:361-375 | a limit order that trades is priced, before markup, no worse than its rounded limit |
| Execution.MarkupAgainstClient | mock-exchange/mock_exchange/execution/engine.py:377-391 | a non-negative markup never moves a four-place price in the client's favour |
| Execution.ExecuteViaBook | mock-exchange/mock_exchange/execution/engine.py:350-393 | the book and the ticks after the order; a price that is the fills' average within 0.00005 a unit, moved by the markup; the mid when nothing trades |
| CircuitBreaker.NoAdmissionWhileOpen | app/shared/circuit_breaker.py:120-128 | in every interleaving, no call is let through from an opening until the recovery timeout has passed |
| CircuitBreaker.OpeningsApart | app/shared/circuit_breaker.py:120-158 | two openings are at least the recovery timeout apart |
| CircuitBreaker.OpeningsInSpan | app/shared/circuit_breaker.py:120-158 | any span T holds at most T / recovery_timeout + 1 openings |
| CircuitBreaker.StoredIsWindow | app/shared/circuit_breaker.py:150-154 | at every moment the pruned list is, in order, the last failure recorded since the last reset and exactly those before it that are less than a window older |
| CircuitBreaker.AfterIsFilter | app/shared/circuit_breaker.py:150-153 | pruning keeps exactly the timestamps later than the cutoff, in order |
| CircuitBreaker.TripsIff | app/shared/circuit_breaker.py:150-158 | a CLOSED breaker trips exactly when the number of recorded failures later than now minus the window, this failure included, reaches the threshold |
| CircuitBreaker.ClosedBelowThresholdIff | app/shared/circuit_breaker.py:156-158 | CLOSED always means fewer stored failures than the threshold, exactly for a positive threshold |
| CircuitBreaker.RetryAfterHonouredIff | app/shared/circuit_breaker.py:123-128 | in every interleaving, a call rejected and retried after its retry_after is admitted exactly when every opening in between is a recovery timeout old |
| CircuitBreaker.RetryAfterIsExact | app/shared/circuit_breaker.py:120-128 | as long as nobody has been let through since a rejection, a call is let through exactly when the retry_after is over |
| CircuitBreaker.ProbeDecides | app/shared/circuit_breaker.py:120-148 | in HALF_OPEN nothing changes until the first success or tracked failure, however many calls come before it; the success closes the circuit with no failure left, the failure opens it again from that moment |
| CircuitBreaker.ClosingNeedsProbe | app/shared/circuit_breaker.py:120-137 | between an opening and any later CLOSED moment lie an admission, a recovery timeout after the opening or later, and then a success that leaves no failure |
| CircuitBreaker.UntrackedIgnored | app/shared/circuit_breaker.py:139-141 | removing every untracked failure from a run changes nothing |
| CircuitBreaker.HalfOpenAdmitsAll | app/shared/circuit_breaker.py:130-131 | HALF_OPEN admits any number of calls before a completion |
| CircuitBreaker.Breaker.constructor | app/shared/circuit_breaker.py:66-84 | a closed breaker with no failures |
| CircuitBreaker.Breaker.BeforeCall | app/shared/circuit_breaker.py:120-131 | admits exactly the calls the machine admits, and otherwise returns a positive retry_after that suffices if nothing else happens |
| CircuitBreaker.Breaker.OnSuccess | app/shared/circuit_breaker.py:133-137 | the fields stay those of the run |
| CircuitBreaker.Breaker.OnFailure | app/shared/circuit_breaker.py:139-158 | the fields stay those of the run, whose pruned list CircuitBreaker.StoredIsWindow describes |
| Idempotency.RunKeepsInvariant | app/middleware/idempotency.py:67-111 | lock, lookup and response invariants hold over every timely run |
| Idempotency.ExclusionIff | app/middleware/idempotency.py:78-111 | in every run, at most one handler is in flight throughout if and only if nobody acquires the lock a TTL or more after a request still in flight acquired it |
| Idempotency.OneHandlerAtATime | app/middleware/idempotency.py:78-111 | in every such run, whatever the cache does, at most one request is between acquiring and releasing the lock |
| Idempotency.TimelyRunInTime | app/middleware/idempotency.py:78-111 | and every timely run is such a run |
| Idempotency.SecondJoinsIff | app/middleware/idempotency.py:78-111 | a second request joins one in flight exactly when the lock TTL has passed since the first acquired the lock, and then the first releases the second's lock |
| Idempotency.LateRunLookedUpEarly | app/middleware/idempotency.py:70-93 | a handler running after the first cache write belongs to a request that looked up before it |
| Idempotency.LateLookupReplays | app/middleware/idempotency.py:70-76 | a later lookup is answered for good with a response some handler gave |
| Idempotency.FailureLeavesNothing | app/middleware/idempotency.py:90-111 | a failed request has cached nothing, and its release leaves the cache alone and the lock free |
| Idempotency.ConflictMeansBusy | app/middleware/idempotency.py:78-88 | 409 only while another request is in flight or crashed, and a crash blocks the key for at most the lock TTL |
| Idempotency.CrashBlocksForTtl | app/middleware/idempotency.py:78-111 | a crash while holding the lock blocks the key until 60 seconds after the lock was acquired, whatever happens meanwhile, and no longer |
| Idempotency.ReplayedForADay | app/middleware/idempotency.py:70-103 | in every continuation that caches nothing else, a lookup replays a cached response until exactly 24 hours have passed |
| Idempotency.NewRunPossibleIff | app/middleware/idempotency.py:70-111 | with a response cached, some timely continuation starts another handler if and only if some request has already missed the cache and no crashed holder's lock outlasts the response |
| Idempotency.SecondRunAfterSuccess | app/middleware/idempotency.py:70-93 | a timely run that meets this condition: a second handler executes after a cached success |
| Idempotency.SlowHandlerLosesExclusion | app/middleware/idempotency.py:78-111 | a run past the lock TTL that loses exclusion: two handlers, the first of which releases the second's lock |
| ResponseCapture.CaptureIsComplete | app/middleware/idempotency.py:156-167 | the captured body is all body chunks in order, the last start message fixes the status, the last one with a content type fixes the content type, and without any the defaults stay |
| ResponseCapture.ReplayRoundTrip | app/middleware/idempotency.py:128-144 | capturing a replayed response gives the same response |
| ResponseCapture.Capture.constructor | app/middleware/idempotency.py:150-154 | blank defaults |
| ResponseCapture.Capture.Call | app/middleware/idempotency.py:156-170 | what is captured is always what has been passed on |
| AccessCache.AnswersComeFromBackend | app/shared/fga/client.py:222-252 | in every interleaving each answer is one the backend gave, and a live entry was stored less than the TTL ago |
| AccessCache.ServedForThirtySeconds | app/shared/fga/client.py:227-252 | a stored answer is given to every request that remembers none of its own exactly until 30 seconds have passed, short of an eviction, another store or a clear, and then the backend is asked |
| AccessCache.StaleOnlyByOverlap | app/shared/fga/client.py:222-279 | a cached answer is wrong only through a change after its fetch that was never cleared or was cleared before it was stored |
| AccessCache.AlikeRuns | app/shared/fga/client.py:222-279 | what the backend allows changes no step a run can take, only the answers: clocks, entries, waiting checks and changes are the same |
| AccessCache.AnswerCanBeWrongIff | app/shared/fga/client.py:222-252 | the answer a check gives, remembered, cached or fetched, is wrong in some run of the same schedule if and only if a change has reached the backend since it was fetched |
| AccessCache.AgreementIff | app/shared/fga/client.py:222-279 | a schedule keeps every live entry and waiting answer equal to the backend's at every moment with no write between change and clear, whatever the backend allows, if and only if at none of these moments one of them is older than a change |
| AccessCache.CacheAgreement | app/shared/fga/client.py:222-279 | at any moment of any run at which nothing live or waiting is older than a change, every live entry and every waiting answer is the backend's current one |
| AccessCache.FreshAnswersAreCurrent | app/shared/fga/client.py:236-252 | and every answer the global cache or the backend gives at such a moment is the backend's current one |
| AccessCache.NoOverlapIsFresh | app/shared/fga/client.py:222-279 | runs whose checks and writes never overlap are such schedules, so they keep the cache in agreement |
| AccessCache.StaleStoreIff | app/shared/fga/client.py:243-279 | a waiting check stores a wrong live entry, in some run of the same schedule, if and only if a change has reached the backend since its answer was fetched, cleared or not |
| AccessCache.OverlapCanLeaveStaleEntry | app/shared/fga/client.py:243-279 | a run that ends with a stale live entry and nothing pending |
| AccessCache.RequestAnswersNeverChange | app/shared/fga/client.py:229-252 | a request whose checks of one key do not overlap never gets two different answers for it, whatever its other checks and all other clients do |
| AccessCache.MissCanDisagreeIff | app/shared/fga/client.py:229-252 | a check that misses both caches can end up disagreeing inside its request if and only if the request has a check of the same key pending |
| AccessCache.HitCanDisagreeIff | app/shared/fga/client.py:236-252 | a check answered by the global cache can if and only if such a check is still unanswered or fetched another answer |
| AccessCache.ParallelChecksCanDisagree | app/shared/fga/client.py:229-252 | a run in which parallel checks of one request disagree, obtained from that condition |
| AccessCache.FgaClient.constructor | app/shared/fga/client.py:182-186 | empty caches |
| AccessCache.FgaClient.Look | app/shared/fga/client.py:227-241 | the two lookups are one step of the machine, with its answer; AccessCache.ServedForThirtySeconds says when the global one answers |
| AccessCache.FgaClient.Keep | app/shared/fga/client.py:248-252 | storing a fetched answer is one step of the machine |
| AccessCache.FgaClient.Clear | app/shared/fga/client.py:258-279 | the end of a write is one step of the machine |
| ScenarioEngine.IdleMeansDefaults | mock-exchange/mock_exchange/scenarios/engine.py:208-284 | in every interleaving, IDLE means regime (1, 1, 0), 50 ms delay, no rejects or partial fills and 2 bps slippage, and RUNNING means a scenario is active |
| ScenarioEngine.StopHolds | mock-exchange/mock_exchange/scenarios/engine.py:225-284 | after a stop nothing but a start disturbs the defaults, whatever leftover tasks do |
| ScenarioEngine.StopCancels | mock-exchange/mock_exchange/scenarios/engine.py:273-284 | the task cancelled by a stop or reset never runs again in any continuation; a reset forgets the scenario |
| ScenarioEngine.LoadEndsRun | mock-exchange/mock_exchange/scenarios/engine.py:208-245 | loading while tasks are alive makes the next one to wake apply nothing and leave the engine idle at the defaults |
| ScenarioEngine.TaskPlaysRest | mock-exchange/mock_exchange/scenarios/engine.py:228-245 | after n wakes of a task the simulator has the regime of the n-th of its remaining phases and the execution engine the settings of the last of them that has any, a missing collaborator is as before, and one more wake after the last goes idle at the defaults |
| ScenarioEngine.ScenarioPlaysThrough | mock-exchange/mock_exchange/scenarios/engine.py:218-271 | a scenario started with no other task shows all its phases so, one per wake, and ends idle at the defaults |
| ScenarioEngine.StartUndisturbedIff | mock-exchange/mock_exchange/scenarios/engine.py:218-245 | a started scenario keeps the engine running as long as its task lives, in every sequence of wakes, if and only if no task was left over at the start |
| ScenarioEngine.WokenToTheEnd | mock-exchange/mock_exchange/scenarios/engine.py:225-245 | any task can be woken to its end, which idles the engine while every other task lives on |
| ScenarioEngine.Engine.constructor | mock-exchange/mock_exchange/scenarios/engine.py:184-194 | an idle engine |
| ScenarioEngine.Engine.LoadPreset | mock-exchange/mock_exchange/scenarios/engine.py:208-216 | the load step, keeping the invariant |
| ScenarioEngine.Engine.StartScenario | mock-exchange/mock_exchange/scenarios/engine.py:218-223 | the start step, refused without a scenario |
| ScenarioEngine.Engine.StopScenario | mock-exchange/mock_exchange/scenarios/engine.py:273-279 | the stop step |
| ScenarioEngine.Engine.ResetEngine | mock-exchange/mock_exchange/scenarios/engine.py:281-284 | the reset step |
| ScenarioEngine.Engine.WakeTask | mock-exchange/mock_exchange/scenarios/engine.py:225-245 | one task's run to its next sleep or its end |
| ScenarioEngine.Engine.ApplyPhase | mock-exchange/mock_exchange/scenarios/engine.py:247-260 | regime and execution settings of the phase on the collaborators present, everything else as before |
| ScenarioEngine.Engine.ResetParams | mock-exchange/mock_exchange/scenarios/engine.py:262-271 | defaults for the collaborators present |
| TradingHours.NextOpen | mock-exchange/mock_exchange/execution/trading_hours.py:51-60 | the search ends at the earliest opening strictly after now; open there for a session of any length, and closed until then if closed now |
| TradingHours.OpenIffInSession | mock-exchange/mock_exchange/execution/trading_hours.py:25-33 | the market is open exactly from an opening until the length of a session has passed |
| TradingHours.ClosedUntilNextOpening | mock-exchange/mock_exchange/execution/trading_hours.py:25-60 | from a close until the next opening the market is closed |
| TradingHours.WeekdaysRepeat | mock-exchange/mock_exchange/execution/trading_hours.py:25-33 | weekdays run from Monday in days of 24 hours and opening hours repeat weekly |
| TradingHours.OpeningExistsIff | mock-exchange/mock_exchange/execution/trading_hours.py:58-59 | there is an opening to find exactly when some weekday trades |
| TradingHours.StaysClosed | mock-exchange/mock_exchange/execution/trading_hours.py:25-33 | an open instant before the next opening belongs to the session running now |
| Reconciliation.PositionsAreNets | mock-exchange/mock_exchange/fund_admin/service.py:48-57 | each position is the net of the counted orders and the instruments are exactly theirs |
| Reconciliation.OrderMovesPosition | mock-exchange/mock_exchange/fund_admin/service.py:48-57 | one more filled or partially filled order moves its own instrument's position by the quantity filled, down for sell and up otherwise |
| Reconciliation.OrderMovesCash | mock-exchange/mock_exchange/fund_admin/service.py:80-90 | and cash by that quantity at its average price, down for buy and up otherwise |
| Reconciliation.FilledTotals | mock-exchange/mock_exchange/execution/engine.py:69-79 | one more fill adds its quantity and its money |
| Reconciliation.AdminPositions | mock-exchange/mock_exchange/fund_admin/service.py:41-72 | the aggregated positions, each moved by at most five units, and not at all with mismatches off |
| Reconciliation.BrokerPositions | app/adapters/mock_exchange_broker.py:182-193 | the loop aggregates to the same positions |
| Reconciliation.ViewsReconcile | mock-exchange/mock_exchange/fund_admin/service.py:41-72 | both views have the same instruments and differ by at most five units each |
| Reconciliation.AdminCash | mock-exchange/mock_exchange/fund_admin/service.py:74-92 | the loop sums each order's cash |
| Reconciliation.NavOfAppend | mock-exchange/mock_exchange/fund_admin/service.py:94-107 | one more order changes the NAV by its own contribution, and by the change of what the mismatches are worth, which is nothing with mismatches off; although positions are regrouped by instrument |
| Reconciliation.TradeAtMarkKeepsNavIff | mock-exchange/mock_exchange/fund_admin/service.py:74-107 | apart from the mismatches, trading at the mark keeps the NAV exactly for buy and sell sides, or a zero price |
| Reconciliation.UnfilledKeepsNav | mock-exchange/mock_exchange/fund_admin/service.py:48-107 | apart from the mismatches, an order that is not counted or traded nothing keeps the NAV |
| Reconciliation.MismatchedValue | mock-exchange/mock_exchange/fund_admin/service.py:59-72 | mismatches move the market value by at most five times the sum of the absolute marks held |
| Reconciliation.MismatchCanReachBound | mock-exchange/mock_exchange/fund_admin/service.py:59-72 | and some mismatches move it by exactly that |
| Reconciliation.ReportedNavIs | mock-exchange/mock_exchange/fund_admin/service.py:94-107 | the reported NAV is the clean NAV and what the mismatches are worth |
| Reconciliation.ReportedNavOfAppend | mock-exchange/mock_exchange/fund_admin/service.py:94-107 | so one more order changes the reported NAV by its contribution, up to the mismatch bounds before and after |
| Reconciliation.AdminNav | mock-exchange/mock_exchange/fund_admin/service.py:94-107 | the loop reports the NAV of positions with mismatches, within that bound of the clean NAV, and exactly it with mismatches off |
| Reconciliation.NavOfMark | mock-exchange/mock_exchange/fund_admin/service.py:94-107 | moving one mark moves the NAV by the reported position times the move |
| Reconciliation.NavWithoutMark | mock-exchange/mock_exchange/fund_admin/service.py:94-107 | an instrument without a mark counts as marked at zero |
| Reconciliation.CashWithinRounding | mock-exchange/mock_exchange/execution/engine.py:71-79 | an order that filled a quantity has an average price that misstates its money by at most 0.00005 a unit; one that filled none has none |
| FundTopics.SlugRoundTripIff | app/shared/audit/cdc_transformer.py:36-51 | an accepted slug survives slug to schema to slug exactly when it has no trailing newline |
| FundTopics.AcceptedIff | app/shared/fund_schema.py:31-47 | a slug has a schema exactly when it is lowercase letters, digits and hyphens, at least one, with or without a final newline |
| FundTopics.SchemasDistinct | app/shared/fund_schema.py:31-47 | distinct slugs have distinct schemas |
| FundTopics.CdcTopicSplits | app/shared/audit/cdc_transformer.py:32-34 | the CDC topic of a fund's table splits back into schema and table |
| FundTopics.RoutedToFundTopicIff | app/shared/audit/cdc_transformer.py:263-304 | a forwarded change goes to exactly the fund's own topic, if and only if the slug has no trailing newline |
| FundTopics.RoutedReportsIff | app/shared/audit/cdc_transformer.py:54-172 | which change of which table is published on which topic of the fund, exactly, and that no other is |
| FundTopics.RoutedIsAudited | app/shared/schema_registry.py:101-120 | every forwarded change goes to one of the fund's audit topics |
| FundTopics.OtherSchemasSkipped | app/shared/audit/cdc_transformer.py:38-52 | changes in schemas that are not a fund's are not forwarded |
| FundTopics.BaseOfFundTopicIff | app/shared/schema_registry.py:61-82 | the base name of a fund topic is its base exactly when the slug has no dot |
| FundTopics.BaseOfRouted | app/shared/schema_registry.py:61-82 | so every accepted slug's topic gives back its suffix |
| FundTopics.BaseOfSharedTopic | app/shared/schema_registry.py:40-82 | shared topics give back their base |
| FundTopics.BaseOfCustomerTopic | app/shared/schema_registry.py:50-82 | customer topics are not stripped |
| FundTopics.FundTopicsDistinct | app/shared/schema_registry.py:45-47 | two funds never share a topic |
| FundTopics.CustomerTopicsDistinct | app/shared/schema_registry.py:50-58 | two customers' funds never share a topic when no id or slug has a dot |

## Left out

- HTTP, Kafka, Redis, database, OpenFGA and Temporal clients: only the GET, SET NX, SET and DEL semantics and the backend's yes-or-no answers that the protocols rely on are modelled.
- Publishing of trade ticks, execution reports and metrics, logging, `recent_ticks`, `arrival_price` and `snapshot`.
- The price simulator, market impact, yield curves and FX: floating-point models with exponentials and square roots; a recentre takes any new mid.
- Order submission, rejection, participation limits and cancellation: the code does not make a cancel final during the latency sleep, and the recorded fill quantity is not tied to the quantities of the ticks.
- Decimal's 28-digit precision and binary floats: arithmetic is exact, so `int(target_volume * 0.8)` is the exact floor of four fifths.
- Execution.ExecuteViaBook: prices a book whose levels are positive; the source divides by zero on one whose taken levels sum to zero.
- Idempotency.NewRunPossibleIff: looks at timely continuations only, and at moments when a response is cached and its TTL has not passed.
- ResponseCapture.Capture.Call: takes decoded text, so a multi-byte character split over two body chunks is not modelled; a replay carries no header but the content type.
- AccessCache.AgreementIff: entries removed by the cache's size bound are arbitrary evictions; retries of a write are further applications of it.
- The circuit breaker in front of the check backend: a rejected or failing check is an abandoned one.
- Unknown preset names (an error without effect) and the preset table itself: a load takes any scenario.
- Sleeping durations of phases: a task may wake at any time.
- Reconciliation over real HTTP payloads, subscriptions and redemptions; the USD ledger is the only cash ledger.
- TradingHours.NextOpen: Python's datetime ends with year 9999; instants here do not end.
- Payloads of domain events; only their topics are modelled.
- Role tables, instrument universe, broker profiles and other finite data.
