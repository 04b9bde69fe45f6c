/**
 The metrics pair sales with purchases exactly as the ledger did, although the metrics ignore T+1:
 for daily runs, because there the lots of a stock stand in the order of their days.
 */
module HoldingAgreement {
  import opened AutoExit
  import opened Broker
  import opened BrokerRuns
  import opened Clock
  import opened Holding
  import opened Ledgers
  import opened Market
  import opened Metrics
  import opened MetricsAgreement
  import opened Options
  import opened Signals
  import opened Sorting
  import opened TradeLog

  // ---------------------------------------------------------------------------
  // 1. Pairing under T+1 is what the ledger does, in any run

  function Parcels(lots: seq<Lot>): (r: seq<Parcel>)
    ensures |r| == |lots|
  {
    if lots == [] then [] else [Parcel(lots[0].day, lots[0].quantity)] + Parcels(lots[1..])
  }

  lemma {:induction false} ParcelsConcat(a: seq<Lot>, b: seq<Lot>)
    ensures Parcels(a + b) == Parcels(a) + Parcels(b)
  {
    if a == [] {
      assert a + b == b;
    } else {
      assert (a + b)[1..] == a[1..] + b;
      ParcelsConcat(a[1..], b);
    }
  }

  function Shares(parcels: seq<Parcel>): nat {
    if parcels == [] then 0 else parcels[0].quantity + Shares(parcels[1..])
  }

  lemma {:induction false} TakeIsConsume(lots: seq<Lot>, day: Day, quantity: int)
    ensures Take(Parcels(lots), day, quantity).left == Parcels(Consume(lots, day, quantity).lots)
  {
    if lots != [] {
      var used := Used(lots[0], day, quantity);
      var parcels := Parcels(lots);
      assert parcels[0] == Parcel(lots[0].day, lots[0].quantity) && parcels[1..] == Parcels(lots[1..]);
      assert used == TakenFrom(parcels[0], day, quantity);
      hide LeftOver, UsedCost, NonEmpty, Used, TakenFrom;
      TakeIsConsume(lots[1..], day, quantity - used);
      var rest := Consume(lots[1..], day, quantity - used).lots;
      assert Consume(lots, day, quantity).lots == LeftOver(lots[0], used) + rest;
      assert Take(parcels, day, quantity).left == NonEmpty(lots[0].day, lots[0].quantity - used) + Parcels(rest);
      hide Take, Consume;
      ParcelsConcat(LeftOver(lots[0], used), rest);
      ParcelsOfLeftOver(lots[0], used);
    }
  }

  lemma {:induction false} TakeServesAll(parcels: seq<Parcel>, day: Day, quantity: nat)
    requires quantity <= SharesBefore(parcels, day)
    ensures Shares(Take(parcels, day, quantity).matches) == quantity
  {
    if parcels != [] {
      var used := TakenFrom(parcels[0], day, quantity);
      assert quantity - used <= SharesBefore(parcels[1..], day);
      hide NonEmpty, TakenFrom;
      TakeServesAll(parcels[1..], day, quantity - used);
      SharesOfConcat(parcels[0].day, used, Take(parcels[1..], day, quantity - used).matches);
    }
  }

  lemma {:induction false} TakeIsTPlusOne(parcels: seq<Parcel>, day: Day, quantity: int)
    ensures forall m :: m in Take(parcels, day, quantity).matches ==> m.day < day
  {
    if parcels != [] {
      TakeIsTPlusOne(parcels[1..], day, quantity - TakenFrom(parcels[0], day, quantity));
    }
  }

  lemma ParcelsOfLeftOver(lot: Lot, used: nat)
    requires used <= lot.quantity
    ensures Parcels(LeftOver(lot, used)) == NonEmpty(lot.day, lot.quantity - used)
  {
  }

  lemma SharesOfConcat(day: Day, quantity: nat, matches: seq<Parcel>)
    ensures Shares(NonEmpty(day, quantity) + matches) == quantity + Shares(matches)
  {
    if quantity == 0 {
      assert NonEmpty(day, quantity) + matches == matches;
    } else {
      assert ([Parcel(day, quantity)] + matches)[1..] == matches;
    }
  }

  lemma {:induction false} PairedTag(pairs: seq<Pair>, symbol: Symbol, sold: Day, matches: seq<Parcel>)
    ensures Paired(pairs + Tag(symbol, sold, matches)) == Paired(pairs) + Shares(matches)
    decreases |matches|
  {
    if matches == [] {
      assert pairs + Tag(symbol, sold, matches) == pairs;
    } else {
      var first := Pair(symbol, matches[0].day, sold, matches[0].quantity);
      assert pairs + Tag(symbol, sold, matches) == (pairs + [first]) + Tag(symbol, sold, matches[1..]);
      PairedTag(pairs + [first], symbol, sold, matches[1..]);
      assert (pairs + [first])[..|pairs|] == pairs;
    }
  }

  /** The ledger's own pairing: its parcels are the lots, every sold share is paired, each with an earlier day. */
  ghost predicate LedgerPairing(book: Ledger, trades: seq<Trade>) {
    var p := PairAll(trades, true);
    && (forall symbol: Symbol :: p.Parcels(symbol) == Parcels(book.Lots(symbol)))
    && Paired(p.pairs) == Total(trades, SoldShares)
    && (forall x :: x in p.pairs ==> x.bought < x.sold)
  }

  lemma SettledLots(book: Ledger, e: Event, v: Verdict, x: Symbol)
    requires Fillable(e, v)
    ensures var lots := SettledBook(book, e, v).Lots(x);
            if x != e.signal.symbol then lots == book.Lots(x)
            else if e.signal.action.Buy? then
              lots == book.Lots(x) + [Lot(v.bar.day, v.quantity, (Amount(v.price, v.quantity) + v.fee) as real)]
            else lots == Consume(book.Lots(x), v.bar.day, v.quantity).lots
  {
  }

  lemma SoldIsPaired(p: Pairing, lots: seq<Lot>, t: Trade)
    requires t.side.SellSide? && p.Parcels(t.symbol) == Parcels(lots) && t.quantity <= AvailableBefore(lots, t.day)
    requires forall x :: x in p.pairs ==> x.bought < x.sold
    ensures var q := PairTrade(p, t, true);
            && q.Parcels(t.symbol) == Parcels(Consume(lots, t.day, t.quantity).lots)
            && Paired(q.pairs) == Paired(p.pairs) + t.quantity
            && forall x :: x in q.pairs ==> x.bought < x.sold
  {
    TakeIsConsume(lots, t.day, t.quantity);
    AvailableIsShares(lots, t.day);
    TakeServesAll(Parcels(lots), t.day, t.quantity);
    TakeIsTPlusOne(Parcels(lots), t.day, t.quantity);
    PairedTag(p.pairs, t.symbol, t.day, Take(Parcels(lots), t.day, t.quantity).matches);
    hide Take, Consume, Shares, Paired;
  }

  lemma SettlePairing(task: Task, book: Ledger, trades: seq<Trade>, e: Event, v: Verdict)
    requires LedgerPairing(book, trades) && SaneFill(task, book, e, v)
    ensures LedgerPairing(SettledBook(book, e, v), trades + [SettledTrade(book, e, v)])
  {
    hide Take, Consume, ExactPnl, Amount, SettledBook, AvailableBefore, Paired;
    var t, after := SettledTrade(book, e, v), SettledBook(book, e, v);
    var lots := book.Lots(t.symbol);
    var p := PairAll(trades, true);
    assert (trades + [t])[..|trades|] == trades;
    var q := PairAll(trades + [t], true);
    assert q == PairTrade(p, t, true);
    TotalAppend(trades, t, SoldShares);
    if e.signal.action.Buy? {
      ParcelsConcat(lots, [Lot(v.bar.day, v.quantity, (Amount(v.price, v.quantity) + v.fee) as real)]);
    } else {
      SoldIsPaired(p, lots, t);
    }
    forall x: Symbol
      ensures q.Parcels(x) == Parcels(after.Lots(x))
    {
      SettledLots(book, e, v, x);
      assert p.Parcels(x) == Parcels(book.Lots(x));
    }
  }

  // ---------------------------------------------------------------------------
  // 2. One sale: when T+1 makes no difference

  /** Shares at the front, before the first parcel that T+1 still holds back on a day. */
  function Leading(parcels: seq<Parcel>, day: int): nat {
    if parcels == [] || parcels[0].day >= day then 0 else parcels[0].quantity + Leading(parcels[1..], day)
  }

  ghost predicate Positive(parcels: seq<Parcel>) {
    forall p :: p in parcels ==> p.quantity > 0
  }

  /** A sale within the leading shares is served alike with and without T+1. */
  lemma {:induction false} LeadingServesAlike(parcels: seq<Parcel>, day: Day, quantity: nat)
    requires quantity <= Leading(parcels, day)
    ensures Take(parcels, NO_LIMIT, quantity) == Take(parcels, day, quantity)
  {
    if parcels != [] {
      var used := TakenFrom(parcels[0], day, quantity);
      assert used == TakenFrom(parcels[0], NO_LIMIT, quantity);
      if parcels[0].day < day {
        assert quantity - used <= Leading(parcels[1..], day);
      } else {
        assert quantity == used == 0;
      }
      hide NonEmpty, TakenFrom;
      LeadingServesAlike(parcels[1..], day, quantity - used);
    }
  }

  /** A larger sale is paired, without T+1, with shares that were not there yet. */
  lemma {:induction false} BeyondLeading(parcels: seq<Parcel>, day: Day, quantity: nat)
    requires Positive(parcels) && Leading(parcels, day) < quantity <= SharesBefore(parcels, day)
    ensures exists m :: m in Take(parcels, NO_LIMIT, quantity).matches && m.day >= day
  {
    var first := parcels[0];
    assert first in parcels;
    var used := TakenFrom(first, NO_LIMIT, quantity);
    var rest := Take(parcels[1..], NO_LIMIT, quantity - used).matches;
    assert used > 0;
    assert Take(parcels, NO_LIMIT, quantity).matches == [Parcel(first.day, used)] + rest;
    if first.day < day {
      BeyondLeading(parcels[1..], day, quantity - used);
      var m :| m in rest && m.day >= day;
      assert m in Take(parcels, NO_LIMIT, quantity).matches;
    } else {
      assert Parcel(first.day, used) in Take(parcels, NO_LIMIT, quantity).matches;
    }
  }

  /** A sale that T+1 allows is paired alike with and without T+1 iff it fits into the leading shares. */
  lemma TakesAgreeIff(parcels: seq<Parcel>, day: Day, quantity: nat)
    requires Positive(parcels) && quantity <= SharesBefore(parcels, day)
    ensures Take(parcels, NO_LIMIT, quantity) == Take(parcels, day, quantity) <==> quantity <= Leading(parcels, day)
  {
    hide Take, Leading;
    if quantity <= Leading(parcels, day) {
      LeadingServesAlike(parcels, day, quantity);
    } else {
      BeyondLeading(parcels, day, quantity);
      TakeIsTPlusOne(parcels, day, quantity);
    }
  }

  // ---------------------------------------------------------------------------
  // 3. In a daily run lots stand in the order of their days

  ghost predicate InOrder(parcels: seq<Parcel>) {
    forall i, j :: 0 <= i < j < |parcels| ==> parcels[i].day <= parcels[j].day
  }

  lemma {:induction false} AllLeadInOrder(parcels: seq<Parcel>, day: Day)
    requires InOrder(parcels)
    ensures Leading(parcels, day) == SharesBefore(parcels, day)
  {
    if parcels != [] {
      if parcels[0].day >= day {
        NothingBefore(parcels, day);
      } else {
        AllLeadInOrder(parcels[1..], day);
      }
    }
  }

  /** On parcels in order, taking from the front is taking what T+1 allows. */
  lemma OrderHidesTPlusOne(parcels: seq<Parcel>, day: Day, quantity: nat)
    requires InOrder(parcels) && quantity <= SharesBefore(parcels, day)
    ensures Take(parcels, NO_LIMIT, quantity) == Take(parcels, day, quantity)
  {
    AllLeadInOrder(parcels, day);
    LeadingServesAlike(parcels, day, quantity);
  }

  function SharesBefore(parcels: seq<Parcel>, day: Day): nat {
    if parcels == [] then 0
    else
      (if parcels[0].day < day then parcels[0].quantity else 0) + SharesBefore(parcels[1..], day)
  }

  lemma {:induction false} NothingBefore(parcels: seq<Parcel>, day: Day)
    requires forall i :: 0 <= i < |parcels| ==> parcels[i].day >= day
    ensures SharesBefore(parcels, day) == 0
  {
    if parcels != [] {
      NothingBefore(parcels[1..], day);
    }
  }

  lemma {:induction false} AvailableIsShares(lots: seq<Lot>, day: Day)
    ensures SharesBefore(Parcels(lots), day) == AvailableBefore(lots, day)
  {
    if lots != [] {
      assert Parcels(lots)[1..] == Parcels(lots[1..]);
      AvailableIsShares(lots[1..], day);
    }
  }

  ghost predicate DaysAmong(few: seq<Parcel>, all: seq<Parcel>) {
    forall x :: x in few ==> exists y :: y in all && y.day == x.day
  }

  lemma ConsKeepsOrder(first: Parcel, rest: seq<Parcel>, quantity: nat, left: seq<Parcel>)
    requires InOrder([first] + rest) && InOrder(left) && DaysAmong(left, rest)
    ensures InOrder(NonEmpty(first.day, quantity) + left) &&
              DaysAmong(NonEmpty(first.day, quantity) + left, [first] + rest)
  {
    var parcels := [first] + rest;
    forall x | x in left
      ensures first.day <= x.day
      ensures exists y :: y in parcels && y.day == x.day
    {
      var y :| y in rest && y.day == x.day;
      var i :| 0 <= i < |rest| && rest[i] == y;
      assert parcels[0] == first && parcels[i + 1] == y;
    }
    assert first in parcels;
    assert forall i :: 0 <= i < |left| ==> left[i] in left;
  }

  lemma TakeFirst(parcels: seq<Parcel>, before: int, quantity: int)
    ensures parcels == [] ==> Take(parcels, before, quantity).left == []
    ensures parcels != [] ==>
              var used := TakenFrom(parcels[0], before, quantity);
              Take(parcels, before, quantity).left ==
                NonEmpty(parcels[0].day, parcels[0].quantity - used) + Take(parcels[1..], before, quantity - used).left
  {
    hide NonEmpty, TakenFrom;
  }

  lemma TailKeepsOrder(parcels: seq<Parcel>)
    requires InOrder(parcels)
    ensures parcels != [] ==> InOrder(parcels[1..]) && parcels == [parcels[0]] + parcels[1..]
    ensures InOrder([]) && DaysAmong([], parcels)
  {
  }

  /** What is left is in order and no day is new. */
  lemma {:induction false} TakeKeepsOrder(parcels: seq<Parcel>, before: int, quantity: int)
    requires InOrder(parcels)
    ensures InOrder(Take(parcels, before, quantity).left) && DaysAmong(Take(parcels, before, quantity).left, parcels)
  {
    hide Take, NonEmpty, DaysAmong, TakenFrom, InOrder;
    TakeFirst(parcels, before, quantity);
    TailKeepsOrder(parcels);
    if parcels != [] {
      var used := TakenFrom(parcels[0], before, quantity);
      TakeKeepsOrder(parcels[1..], before, quantity - used);
      ConsKeepsOrder(parcels[0], parcels[1..], parcels[0].quantity - used,
                     Take(parcels[1..], before, quantity - used).left);
    }
  }

  ghost predicate DailyWorld(task: Task, feed: Feed) {
    !task.minuteData && forall s :: s in feed.daily ==> InDayOrder(feed.daily[s])
  }

  /** The day a pending purchase would fill on. */
  function FillDay(feed: Feed, e: Event): Option<Day> {
    var bar := NextBar(DailyBars(feed, e.signal.symbol), e.signal.time);
    if bar.Some? then Some(bar.value.day) else None
  }

  /** Every parcel held is no later than any pending purchase of the same stock would be. */
  ghost predicate Ordered(feed: Feed, p: Pairing, queue: seq<Event>) {
    && (forall symbol: Symbol :: InOrder(p.Parcels(symbol)))
    && (forall e, x ::
          e in queue && e.signal.action.Buy? && FillDay(feed, e).Some? && x in p.Parcels(e.signal.symbol) ==>
            x.day <= FillDay(feed, e).value)
  }

  /** Purchases pending later fill no earlier. */
  lemma FillDaysMonotone(feed: Feed, a: Event, b: Event)
    requires forall s :: s in feed.daily ==> InDayOrder(feed.daily[s])
    requires Proper(a) && Proper(b) && a.bar.None? && b.bar.None? && KeyLess(a, b) && a.signal.symbol == b.signal.symbol
    requires FillDay(feed, b).Some?
    ensures FillDay(feed, a).Some? && FillDay(feed, a).value <= FillDay(feed, b).value
  {
    var bars := DailyBars(feed, a.signal.symbol);
    assert a.signal.time.day <= b.signal.time.day;
    FirstAfterMonotone(bars, a.signal.time.day, b.signal.time.day);
  }

  /** An event in the shape the pairing cares about: a purchase that fills, or a covered sale. */
  lemma FillKeepsOrder(feed: Feed, p: Pairing, e: Event, rest: seq<Event>, t: Trade)
    requires Ordered(feed, p, [e] + rest) && t.symbol == e.signal.symbol
    requires t.side.BuySide? ==> e.signal.action.Buy? && FillDay(feed, e) == Some(t.day)
    requires t.side.BuySide? ==> forall x :: x in rest && x.signal.action.Buy? && x.signal.symbol == e.signal.symbol ==>
               FillDay(feed, x).Some? ==> t.day <= FillDay(feed, x).value
    ensures Ordered(feed, PairTrade(p, t, true), rest)
  {
    hide FillDay, Take;
    var q := PairTrade(p, t, true);
    var mine := p.Parcels(t.symbol);
    assert e in [e] + rest;
    if t.side.SellSide? {
      TakeKeepsOrder(mine, t.day, t.quantity);
    }
    forall symbol: Symbol
      ensures InOrder(q.Parcels(symbol))
    {
      assert InOrder(p.Parcels(symbol));
      if symbol != t.symbol {
        assert q.Parcels(symbol) == p.Parcels(symbol);
      } else if t.side.BuySide? {
        assert forall i :: 0 <= i < |mine| ==> mine[i] in mine;
      }
    }
    forall x, y | x in rest && x.signal.action.Buy? && FillDay(feed, x).Some? && y in q.Parcels(x.signal.symbol)
      ensures y.day <= FillDay(feed, x).value
    {
      assert x in [e] + rest;
      if x.signal.symbol != t.symbol {
        assert q.Parcels(x.signal.symbol) == p.Parcels(x.signal.symbol);
      } else if t.side.SellSide? {
        var z :| z in mine && z.day == y.day;
      }
    }
  }

  // ---------------------------------------------------------------------------
  // 4. Every reachable state of a daily run

  /** Trades fall on days with a daily bar, and so do the bars exits carry. */
  ghost predicate OnBarDays(task: Task, feed: Feed, s: Run) {
    && (forall t :: t in s.trades ==> t.day in BarDays(task, feed))
    && (forall e :: e in s.queue && e.bar.Some? ==> e.bar.value in DailyBars(feed, e.signal.symbol))
  }

  ghost predicate DailyInvariant(task: Task, feed: Feed, s: Run) {
    && Agenda(s)
    && LedgerPairing(s.book, s.trades)
    && Ordered(feed, PairAll(s.trades, true), s.queue)
    && PairAll(s.trades, false) == PairAll(s.trades, true)
    && OnBarDays(task, feed, s)
  }

  lemma DailyBarFacts(task: Task, feed: Feed, e: Event, bar: Bar)
    requires !task.minuteData && EventBar(task, feed, e) == Some(bar)
    requires e.bar.Some? ==> e.bar.value in DailyBars(feed, e.signal.symbol)
    ensures bar in DailyBars(feed, e.signal.symbol)
    ensures e.bar.None? ==> FillDay(feed, e) == Some(bar.day)
    ensures task.start <= bar.day <= task.end ==> bar.day in BarDays(task, feed)
  {
  }

  lemma DailyExitBar(task: Task, feed: Feed, e: Event, v: Verdict, sequence: nat)
    requires !task.minuteData && v.Fill?
    ensures var exit := SettledExit(task, feed, e, v, sequence);
            exit.Some? ==>
              && exit.value.bar.Some? && exit.value.signal.action.Sell? && exit.value.signal.symbol == e.signal.symbol
                           && exit.value.bar.value in DailyBars(feed, e.signal.symbol)
  {
  }

  /** How a step changes the queue: the head goes, an exit may come. */
  lemma QueueAfter(rest: seq<Event>, exit: Option<Event>)
    requires Strict(KeyLess, rest)
    requires exit.Some? ==> exit.value.time.At?
    requires exit.Some? ==> forall y :: y in rest ==> y.time.At? && y.sequence < exit.value.sequence
    ensures var queue := if exit.Some? then SortEvents(rest + [exit.value]) else rest;
            forall x :: x in queue ==> x in rest || exit == Some(x)
  {
    if exit.Some? {
      KeyOrder();
      SortOfStrict(KeyLess, rest);
      assert (rest + [exit.value])[..|rest|] == rest;
      forall y | y in rest
        ensures KeyLess(exit.value, y) || KeyLess(y, exit.value)
      {
        Comparable(exit.value, y);
      }
      InsertKeepsStrict(KeyLess, rest, exit.value);
    }
  }

  /** The head comes before everything else in the queue. */
  lemma HeadIsFirst(s: Run)
    requires Agenda(s) && s.queue != []
    ensures Proper(s.queue[0]) && Strict(KeyLess, s.queue[1..])
    ensures forall x :: x in s.queue[1..] ==> Proper(x) && x.sequence < s.nextSequence && KeyLess(s.queue[0], x)
  {
    hide KeyLess, Proper;
    var all := s.done + s.queue;
    var rest := s.queue[1..];
    assert forall i :: 0 <= i < |rest| ==> all[|s.done| + 1 + i] == rest[i];
    assert all[|s.done|] == s.queue[0];
    assert s.queue[0] in all;
    forall x | x in rest
      ensures x in all && KeyLess(s.queue[0], x)
    {
      var i :| 0 <= i < |rest| && rest[i] == x;
      assert all[|s.done| + 1 + i] == x;
    }
  }

  /** A purchase fills no later than any pending purchase of the same stock would. */
  lemma DailyBuyIsFirst(task: Task, feed: Feed, s: Run, bar: Bar)
    requires DailyWorld(task, feed) && Agenda(s) && s.queue != [] && s.queue[0].signal.action.Buy?
    requires EventBar(task, feed, s.queue[0]) == Some(bar)
    ensures FillDay(feed, s.queue[0]) == Some(bar.day)
    ensures forall x ::
              x in s.queue[1..] && x.signal.action.Buy? && x.signal.symbol == s.queue[0].signal.symbol ==>
                FillDay(feed, x).Some? ==> bar.day <= FillDay(feed, x).value
  {
    var e, rest := s.queue[0], s.queue[1..];
    HeadIsFirst(s);
    assert e.bar.None?;
    DailyBarFacts(task, feed, e, bar);
    hide EventBar, FillDay, KeyLess, DailyBars;
    forall x | x in rest && x.signal.action.Buy? && x.signal.symbol == e.signal.symbol && FillDay(feed, x).Some?
      ensures bar.day <= FillDay(feed, x).value
    {
      assert x.bar.None?;
      FillDaysMonotone(feed, e, x);
    }
  }

  /** A sale is paired alike: lots stand in order and T+1 covers it. */
  lemma DailySaleAlike(feed: Feed, p: Pairing, lots: seq<Lot>, t: Trade)
    requires InOrder(p.Parcels(t.symbol)) && p.Parcels(t.symbol) == Parcels(lots)
    requires t.side.SellSide? && t.quantity <= AvailableBefore(lots, t.day)
    ensures PairTrade(p, t, false) == PairTrade(p, t, true)
  {
    AvailableIsShares(lots, t.day);
    OrderHidesTPlusOne(p.Parcels(t.symbol), t.day, t.quantity);
  }

  lemma TradeOfFill(task: Task, book: Ledger, e: Event, v: Verdict)
    requires SaneFill(task, book, e, v)
    ensures var t := SettledTrade(book, e, v);
            && t.side == SideOf(e.signal.action) && t.symbol == e.signal.symbol && t.day == v.bar.day
            && t.quantity == v.quantity
            && (t.side.SellSide? ==> t.quantity <= AvailableBefore(book.Lots(t.symbol), t.day))
  {
  }

  /** One fill of a daily run: pairing stays the ledger's, in order, and blind to T+1. */
  lemma DailyFill(task: Task, feed: Feed, s: Run, v: Verdict)
    requires DailyWorld(task, feed) && DailyInvariant(task, feed, s) && s.queue != []
    requires v == Judge(task, feed, s.queue[0], s.book) && v.Fill? && SaneFill(task, s.book, s.queue[0], v)
    ensures var e := s.queue[0];
            var trades := s.trades + [SettledTrade(s.book, e, v)];
            && LedgerPairing(SettledBook(s.book, e, v), trades)
            && Ordered(feed, PairAll(trades, true), s.queue[1..])
            && PairAll(trades, false) == PairAll(trades, true)
            && v.bar.day in BarDays(task, feed)
  {
    var e, rest := s.queue[0], s.queue[1..];
    var t := SettledTrade(s.book, e, v);
    var p := PairAll(s.trades, true);
    TradeOfFill(task, s.book, e, v);
    FilledInBoardLots(task, feed, e, s.book);
    assert InOrder(p.Parcels(t.symbol)) && p.Parcels(t.symbol) == Parcels(s.book.Lots(t.symbol));
    assert e in s.queue && [e] + rest == s.queue && (s.trades + [t])[..|s.trades|] == s.trades;
    hide Judge, SettledTrade, SettledBook, PairTrade, EventBar, FillDay, BarDays, AvailableBefore, KeyLess, DailyBars,
      Agenda, LedgerPairing, InOrder, Parcels, DailyWorld, SaneFill;
    DailyBarFacts(task, feed, e, v.bar);
    SettlePairing(task, s.book, s.trades, e, v);
    if e.signal.action.Sell? {
      DailySaleAlike(feed, p, s.book.Lots(t.symbol), t);
    } else {
      DailyBuyIsFirst(task, feed, s, v.bar);
    }
    FillKeepsOrder(feed, p, e, rest, t);
  }

  lemma StepDaily(task: Task, feed: Feed, s: Run)
    requires DailyWorld(task, feed) && DailyInvariant(task, feed, s) && s.queue != [] && !s.crashed
    ensures DailyInvariant(task, feed, Step(task, feed, s))
  {
    hide Judge, SettledBook, LedgerPairing, BarDays, DailyBars, Proper, KeyLess, FillDay, InOrder, SettledExit;
    var e, rest := s.queue[0], s.queue[1..];
    var v := Judge(task, feed, e, s.book);
    var next := Step(task, feed, s);
    StepAgenda(task, feed, s);
    assert [e] + rest == s.queue;
    if v.Fill? {
      FillIsSane(task, feed, e, s.book);
      DailyFill(task, feed, s, v);
      DailyExitBar(task, feed, e, v, s.nextSequence);
      HeadIsFirst(s);
      ProperTimes(rest);
      QueueAfter(rest, SettledExit(task, feed, e, v, s.nextSequence));
    }
  }

  lemma ProperTimes(events: seq<Event>)
    requires forall e :: e in events ==> Proper(e)
    ensures forall e :: e in events ==> e.time.At?
  {
  }

  lemma StartDaily(task: Task, feed: Feed, signals: seq<Signal>)
    requires Dated(signals)
    ensures DailyInvariant(task, feed, Start(task, signals))
  {
    StartAgenda(task, signals);
    SortInitial(signals);
  }

  lemma {:induction false} DailyAlways(task: Task, feed: Feed, signals: seq<Signal>, n: nat)
    requires Dated(signals) && DailyWorld(task, feed)
    ensures DailyInvariant(task, feed, After(task, feed, Start(task, signals), n))
  {
    hide DailyInvariant, Step;
    if n == 0 {
      StartDaily(task, feed, signals);
    } else {
      DailyAlways(task, feed, signals, n - 1);
      var before := After(task, feed, Start(task, signals), n - 1);
      if before.queue != [] && !before.crashed {
        StepDaily(task, feed, before);
      }
    }
  }

  /**
   In a daily run of dated signals over ascending bars the metrics' first-in first-out pairing is the
   ledger's T+1 pairing: same open lots, same pairs; all sold shares are paired, each with a strictly
   earlier purchase.
   */
  lemma DailyRunsPairAlike(task: Task, feed: Feed, signals: seq<Signal>, n: nat, symbol: Symbol)
    requires Dated(signals) && DailyWorld(task, feed)
    ensures var s := After(task, feed, Start(task, signals), n);
            var p := PairAll(s.trades, false);
            && p == PairAll(s.trades, true)
            && p.Parcels(symbol) == Parcels(s.book.Lots(symbol)) && InOrder(p.Parcels(symbol))
            && Paired(p.pairs) == Total(s.trades, SoldShares)
            && forall x :: x in p.pairs ==> x.bought < x.sold
  {
    DailyAlways(task, feed, signals, n);
  }

  /** In a daily run every trade day has a bar, so the two accounts agree without any condition on coverage. */
  lemma DailyAccountsAgree(task: Task, feed: Feed, signals: seq<Signal>, n: nat, symbol: Symbol)
    requires Dated(signals) && DailyWorld(task, feed)
    ensures var s := After(task, feed, Start(task, signals), n);
            var dates := Dates(task, feed);
            var end := AccountAfter(task, s.trades, dates, |dates|);
            end.cash == s.book.cash && end.Position(symbol) == s.book.Position(symbol)
  {
    hide Step, Agenda, LedgerPairing, Ordered;
    DailyAlways(task, feed, signals, n);
    AccountsAgree(task, feed, signals, n, symbol);
  }

  // ---------------------------------------------------------------------------
  // 5. Open positions, in any run

  /** In list order, too, no prefix of a run's trades oversells. */
  lemma {:induction false} RunNeverOversells(task: Task, feed: Feed, signals: seq<Signal>, n: nat)
    ensures NeverOversold(After(task, feed, Start(task, signals), n).trades)
  {
    hide Step, Conserved, Counted, TPlusOneBalance, Sound;
    var s := After(task, feed, Start(task, signals), n);
    if n > 0 {
      RunNeverOversells(task, feed, signals, n - 1);
      var before := After(task, feed, Start(task, signals), n - 1);
      AlwaysKept(task, feed, signals, n);
      PositionsNonNegative(s.book);
      TradesGrow(task, feed, signals, n);
      forall k: nat, symbol: Symbol | k <= |s.trades|
        ensures Total(s.trades[..k], HeldEffect(symbol)) >= 0
      {
        if k <= |before.trades| {
          assert s.trades[..k] == before.trades[..k];
        } else {
          assert s.trades[..k] == s.trades;
          assert s.book.Position(symbol) >= 0;
        }
      }
    }
  }

  lemma PositionsNonNegative(book: Ledger)
    requires Sound(book)
    ensures forall symbol: Symbol :: book.Position(symbol) >= 0
  {
  }

  /** One iteration appends at most one trade. */
  lemma TradesGrow(task: Task, feed: Feed, signals: seq<Signal>, n: nat)
    requires n > 0
    ensures var before := After(task, feed, Start(task, signals), n - 1).trades;
            var after := After(task, feed, Start(task, signals), n).trades;
            |before| <= |after| <= |before| + 1 && after[..|before|] == before
  {
    hide Judge, SettledTrade, SettledBook, SettledExit, KeyLess;
  }

  /** The metrics' count of open positions is the number of stocks the ledger still holds. */
  lemma OpenPositionsAgree(task: Task, feed: Feed, signals: seq<Signal>, n: nat)
    ensures var s := After(task, feed, Start(task, signals), n);
            forall symbol :: symbol in OpenSymbols(ReplayAll(Replay(0, map[]), s.trades)) <==>
                s.book.Position(symbol) > 0
  {
    hide Step, After, Conserved, Counted, TPlusOneBalance, Sound;
    var s := After(task, feed, Start(task, signals), n);
    AlwaysKept(task, feed, signals, n);
    RunNeverOversells(task, feed, signals, n);
    var r := ReplayAll(Replay(0, map[]), s.trades);
    forall symbol: Symbol
      ensures symbol in OpenSymbols(r) <==> s.book.Position(symbol) > 0
    {
      ExactReplay(0, s.trades, symbol);
      assert r.Position(symbol) == s.book.Position(symbol);
    }
  }
}
