/**
 Holding periods and open positions read off the trade list (backtest_engine.py, _average_holding_days,
 _holding_trading_days and _open_position_count). The pairing of sales with purchases is plain first-in
 first-out: unlike the ledger it does not look at T+1.
 */
module Holding {
  import opened Broker
  import opened Clock
  import opened Ledgers
  import opened Market
  import opened Metrics
  import opened Rounding

  datatype Parcel = Parcel(day: Day, quantity: nat)
  datatype Taking = Taking(left: seq<Parcel>, matches: seq<Parcel>)

  /** No day bars a purchase from being paired. */
  const NO_LIMIT: int := LAST_DAY + 1

  function TakenFrom(parcel: Parcel, before: int, remaining: int): (u: nat)
    ensures u <= parcel.quantity
  {
    if remaining > 0 && parcel.day < before then Min(parcel.quantity, remaining) else 0
  }

  function NonEmpty(day: Day, quantity: nat): seq<Parcel> {
    if quantity > 0 then [Parcel(day, quantity)] else []
  }

  /** Take shares from the front, from parcels bought before a day. */
  function Take(parcels: seq<Parcel>, before: int, remaining: int): Taking {
    if parcels == [] then Taking([], [])
    else
      var used := TakenFrom(parcels[0], before, remaining);
      var rest := Take(parcels[1..], before, remaining - used);
      Taking(NonEmpty(parcels[0].day, parcels[0].quantity - used) + rest.left,
             NonEmpty(parcels[0].day, used) + rest.matches)
  }

  datatype Pair = Pair(symbol: Symbol, bought: Day, sold: Day, quantity: nat)

  datatype Pairing = Pairing(parcels: map<Symbol, seq<Parcel>>, pairs: seq<Pair>) {
    function Parcels(symbol: Symbol): seq<Parcel> {
      if symbol in parcels then parcels[symbol] else []
    }
  }

  function Tag(symbol: Symbol, sold: Day, matches: seq<Parcel>): (r: seq<Pair>)
    ensures |r| == |matches|
    ensures forall i :: 0 <= i < |r| ==> r[i] == Pair(symbol, matches[i].day, sold, matches[i].quantity)
  {
    seq(|matches|, i requires 0 <= i < |matches| => Pair(symbol, matches[i].day, sold, matches[i].quantity))
  }

  /** `tPlusOne` pairs as the ledger does; without it, as the metrics do. */
  function PairTrade(p: Pairing, t: Trade, tPlusOne: bool): Pairing {
    if t.side.BuySide? then p.(parcels := p.parcels[t.symbol := p.Parcels(t.symbol) + [Parcel(t.day, t.quantity)]])
    else
      var taken := Take(p.Parcels(t.symbol), if tPlusOne then t.day else NO_LIMIT, t.quantity);
      Pairing(p.parcels[t.symbol := taken.left], p.pairs + Tag(t.symbol, t.day, taken.matches))
  }

  function PairAll(trades: seq<Trade>, tPlusOne: bool): Pairing {
    if trades == [] then Pairing(map[], [])
    else PairTrade(PairAll(trades[..|trades| - 1], tPlusOne), trades[|trades| - 1], tPlusOne)
  }

  function Paired(pairs: seq<Pair>): nat {
    if pairs == [] then 0 else Paired(pairs[..|pairs| - 1]) + pairs[|pairs| - 1].quantity
  }

  /** Position of each date in the equity rows; a later duplicate would win. */
  function RankMap(dates: seq<Day>): map<Day, nat> {
    if dates == [] then map[] else RankMap(dates[..|dates| - 1])[dates[|dates| - 1] := |dates| - 1]
  }

  /** Trading days when both dates have a row, calendar days otherwise, never negative. */
  function HeldDays(rank: map<Day, nat>, bought: Day, sold: Day): nat {
    if bought in rank && sold in rank then Max(rank[sold] as int - rank[bought] as int, 0)
    else Max(sold as int - bought as int, 0)
  }

  function WeightedDays(rank: map<Day, nat>, pairs: seq<Pair>): nat {
    if pairs == [] then 0
    else
      var p := pairs[|pairs| - 1];
      WeightedDays(rank, pairs[..|pairs| - 1]) + ShareDays(rank, p.bought, p.sold, p.quantity)
  }

  function ShareDays(rank: map<Day, nat>, bought: Day, sold: Day, quantity: nat): nat {
    HeldDays(rank, bought, sold) * quantity
  }

  /** Average holding time in 0.0001 days, weighted by shares. */
  function AverageOf(rank: map<Day, nat>, pairs: seq<Pair>): int {
    if Paired(pairs) == 0 then 0 else Round(WeightedDays(rank, pairs) as real / Paired(pairs) as real * 10000.0)
  }

  /** One more matched parcel adds its days times its shares; an empty one adds nothing. */
  lemma WeighNext(rank: map<Day, nat>, pairs: seq<Pair>, symbol: Symbol, sold: Day, matches: seq<Parcel>, day: Day,
                  used: nat)
    ensures var before := pairs + Tag(symbol, sold, matches);
            var after := pairs + Tag(symbol, sold, matches + NonEmpty(day, used));
            && Paired(after) == Paired(before) + used
            && WeightedDays(rank, after) == WeightedDays(rank, before) + ShareDays(rank, day, sold, used)
  {
    var before := pairs + Tag(symbol, sold, matches);
    if used > 0 {
      var after := pairs + Tag(symbol, sold, matches + [Parcel(day, used)]);
      assert after == before + [Pair(symbol, day, sold, used)];
      assert after[..|after| - 1] == before;
    } else {
      assert matches + NonEmpty(day, used) == matches;
    }
  }

  /** The pairing loop's progress: what is left and matched so far, plus what the rest will give. */
  ghost predicate Midway(parcels: seq<Parcel>, quantity: int, i: nat, left: seq<Parcel>, matches: seq<Parcel>,
                         remaining: int) {
    && i <= |parcels|
    && Take(parcels, NO_LIMIT, quantity).left == left + Take(parcels[i..], NO_LIMIT, remaining).left
    && Take(parcels, NO_LIMIT, quantity).matches == matches + Take(parcels[i..], NO_LIMIT, remaining).matches
  }

  lemma MidwayNext(parcels: seq<Parcel>, quantity: int, i: nat, left: seq<Parcel>, matches: seq<Parcel>, remaining: int)
    requires i < |parcels| && Midway(parcels, quantity, i, left, matches, remaining)
    ensures var used := TakenFrom(parcels[i], NO_LIMIT, remaining);
            Midway(parcels, quantity, i + 1, left + NonEmpty(parcels[i].day, parcels[i].quantity - used),
                   matches + NonEmpty(parcels[i].day, used), remaining - used)
  {
    hide TakenFrom, NonEmpty;
    assert parcels[i..][0] == parcels[i] && parcels[i..][1..] == parcels[i + 1..];
    var used := TakenFrom(parcels[i], NO_LIMIT, remaining);
    var rest := Take(parcels[i + 1..], NO_LIMIT, remaining - used);
    Associative(left, NonEmpty(parcels[i].day, parcels[i].quantity - used), rest.left);
    Associative(matches, NonEmpty(parcels[i].day, used), rest.matches);
  }

  lemma MidwayEnds(parcels: seq<Parcel>, quantity: int, left: seq<Parcel>, matches: seq<Parcel>, remaining: int)
    requires Midway(parcels, quantity, |parcels|, left, matches, remaining)
    ensures Take(parcels, NO_LIMIT, quantity) == Taking(left, matches)
  {
    assert left + [] == left && matches + [] == matches;
  }

  lemma MidwayStarts(parcels: seq<Parcel>, quantity: int)
    ensures Midway(parcels, quantity, 0, [], [], quantity)
  {
    assert parcels[0..] == parcels;
  }

  method PairSale(rank: map<Day, nat>, symbol: Symbol, parcels: seq<Parcel>, sold: Day, quantity: nat,
                  ghost pairs: seq<Pair>, days0: nat, quantity0: nat)
    returns (left: seq<Parcel>, days: nat, total: nat)
    requires days0 == WeightedDays(rank, pairs) && quantity0 == Paired(pairs)
    ensures var taken := Take(parcels, NO_LIMIT, quantity);
            var after := pairs + Tag(symbol, sold, taken.matches);
            left == taken.left && days == WeightedDays(rank, after) && total == Paired(after)
  {
    hide Midway, Take, TakenFrom, NonEmpty, WeightedDays, ShareDays, Paired, Tag;
    left, days, total := [], days0, quantity0;
    var remaining: int := quantity;
    ghost var matches: seq<Parcel> := [];
    MidwayStarts(parcels, quantity);
    assert pairs + Tag(symbol, sold, matches) == pairs;
    for i := 0 to |parcels|
      invariant Midway(parcels, quantity, i, left, matches, remaining)
      invariant days == WeightedDays(rank, pairs + Tag(symbol, sold, matches))
      invariant total == Paired(pairs + Tag(symbol, sold, matches))
    {
      var parcel := parcels[i];
      var used := TakenFrom(parcel, NO_LIMIT, remaining);
      MidwayNext(parcels, quantity, i, left, matches, remaining);
      WeighNext(rank, pairs, symbol, sold, matches, parcel.day, used);
      days := days + ShareDays(rank, parcel.day, sold, used);
      total := total + used;
      matches := matches + NonEmpty(parcel.day, used);
      left := left + NonEmpty(parcel.day, parcel.quantity - used);
      remaining := remaining - used;
    }
    MidwayEnds(parcels, quantity, left, matches, remaining);
  }

  method AverageHoldingDays(trades: seq<Trade>, dates: seq<Day>) returns (average: int)
    ensures average == AverageOf(RankMap(dates), PairAll(trades, false).pairs)
  {
    hide HeldDays, Take, ShareDays;
    var rank := RankMap(dates);
    var parcels: map<Symbol, seq<Parcel>> := map[];
    var days, total := 0, 0;
    ghost var state := Pairing(map[], []);
    for i := 0 to |trades|
      invariant state == PairAll(trades[..i], false) && parcels == state.parcels
      invariant days == WeightedDays(rank, state.pairs) && total == Paired(state.pairs)
    {
      var t := trades[i];
      assert trades[..i + 1][..i] == trades[..i];
      var mine := if t.symbol in parcels then parcels[t.symbol] else [];
      if t.side.BuySide? {
        parcels := parcels[t.symbol := mine + [Parcel(t.day, t.quantity)]];
      } else {
        var left;
        left, days, total := PairSale(rank, t.symbol, mine, t.day, t.quantity, state.pairs, days, total);
        parcels := parcels[t.symbol := left];
      }
      state := PairTrade(state, t, false);
    }
    assert trades[..|trades|] == trades;
    if total == 0 {
      return 0;
    }
    average := Round(days as real / total as real * 10000.0);
  }

  // ---------------------------------------------------------------------------

  /** Stocks with a positive position in a replay of the trades in list order. */
  function OpenSymbols(r: Replay): set<Symbol> {
    set s | s in r.positions && r.positions[s] > 0
  }

  method OpenPositionCount(trades: seq<Trade>) returns (count: nat)
    ensures count == |OpenSymbols(ReplayAll(Replay(0, map[]), trades))|
  {
    ghost var replay := ReplayAll(Replay(0, map[]), trades);
    var cash, positions := ReplayDay(0, map[], trades);
    count := 0;
    var keys := positions.Keys;
    ghost var counted: set<Symbol> := {};
    while keys != {}
      invariant keys <= positions.Keys && count == |counted|
      invariant forall s :: s in counted <==> s in positions && s !in keys && positions[s] > 0
      decreases keys
    {
      var s :| s in keys;
      if positions[s] > 0 {
        count := count + 1;
        counted := counted + {s};
      }
      keys := keys - {s};
    }
    assert counted == OpenSymbols(replay);
  }
}
