/** The time-series enrichment of the ranked candidates: the fold over the last six samples
    of an item's price history, written once and parameterised by the market side. */
module Enricher {
  import opened Wrappers
  import opened Seqs
  import opened Catalog

  /** Number of most recent samples that are looked at. */
  const TimeSeriesEntries := 6

  /** One time-series sample; prices may be null and volumes missing. */
  datatype TimeSeriesEntry = TimeSeriesEntry(
    avgHighPrice: Option<int>,
    avgLowPrice: Option<int>,
    highPriceVolume: Option<int>,
    lowPriceVolume: Option<int>)

  /** The average price is divided by the number of priced samples, which may be zero. */
  datatype EnrichError = DivideByZero(itemId: int)

  function PriceOn(e: TimeSeriesEntry, side: Side): Option<int> {
    match side
    case HighSide => e.avgHighPrice
    case LowSide => e.avgLowPrice
  }

  /** The sample's volume, a missing field counting as 0. */
  function VolumeOn(e: TimeSeriesEntry, side: Side): int {
    match side
    case HighSide => e.highPriceVolume.GetOr(0)
    case LowSide => e.lowPriceVolume.GetOr(0)
  }

  /** `TakeLast(n)`: the last `n` samples, or all of them when there are fewer. */
  function LastEntries(series: seq<TimeSeriesEntry>, n: nat): (w: seq<TimeSeriesEntry>)
    ensures |w| == if |series| < n then |series| else n
    ensures w == series[|series| - |w|..]
  {
    if |series| <= n then series else series[|series| - n..]
  }

  /** The window the program folds over. */
  function Window(series: seq<TimeSeriesEntry>): seq<TimeSeriesEntry> {
    LastEntries(series, TimeSeriesEntries)
  }

  /** Sum of the volumes in `w`. */
  function TotalVolume(w: seq<TimeSeriesEntry>, side: Side): int {
    if w == [] then 0 else TotalVolume(w[..|w| - 1], side) + VolumeOn(w[|w| - 1], side)
  }

  /** Sum of the prices present in `w`. */
  function TotalPrice(w: seq<TimeSeriesEntry>, side: Side): int {
    if w == [] then 0 else TotalPrice(w[..|w| - 1], side) + PriceOn(w[|w| - 1], side).GetOr(0)
  }

  /** Number of samples of `w` whose price is present. */
  function ValidCount(w: seq<TimeSeriesEntry>, side: Side): nat {
    if w == [] then 0 else ValidCount(w[..|w| - 1], side) + (if PriceOn(w[|w| - 1], side).Some? then 1 else 0)
  }

  /** At most one price per sample is counted, and all are counted exactly when all are present. */
  lemma {:induction false} ValidCountBound(w: seq<TimeSeriesEntry>, side: Side)
    ensures ValidCount(w, side) <= |w|
    ensures ValidCount(w, side) == |w| <==> forall i :: 0 <= i < |w| ==> PriceOn(w[i], side).Some?
  {
    if w != [] {
      var init := w[..|w| - 1];
      ValidCountBound(init, side);
      assert forall i :: 0 <= i < |init| ==> init[i] == w[i];
    }
  }

  /** Samples without a price contribute nothing to the price sum. */
  lemma {:induction false} NoValidPriceSumsToZero(w: seq<TimeSeriesEntry>, side: Side)
    requires ValidCount(w, side) == 0
    ensures TotalPrice(w, side) == 0
  {
    if w != [] {
      NoValidPriceSumsToZero(w[..|w| - 1], side);
    }
  }

  /** The fold over the last six samples: price sum, volume sum and priced-sample count. */
  method Aggregate(series: seq<TimeSeriesEntry>, side: Side)
    returns (totalPrice: int, totalVolume: int, validCount: nat)
    ensures totalPrice == TotalPrice(Window(series), side)
    ensures totalVolume == TotalVolume(Window(series), side)
    ensures validCount == ValidCount(Window(series), side)
    ensures validCount <= TimeSeriesEntries
  {
    var viewed := LastEntries(series, TimeSeriesEntries);
    totalPrice, totalVolume, validCount := 0, 0, 0;
    var i := 0;
    while i < |viewed|
      invariant 0 <= i <= |viewed|
      invariant totalPrice == TotalPrice(viewed[..i], side)
      invariant totalVolume == TotalVolume(viewed[..i], side)
      invariant validCount == ValidCount(viewed[..i], side)
    {
      var entry := viewed[i];
      var volume := VolumeOn(entry, side);
      var price := 0;
      if PriceOn(entry, side).Some? {
        price := PriceOn(entry, side).value;
        validCount := validCount + 1;
      }
      totalPrice := totalPrice + price;
      totalVolume := totalVolume + volume;
      assert viewed[..i + 1][..i] == viewed[..i];
      i := i + 1;
    }
    assert viewed[..i] == viewed;
    ValidCountBound(viewed, side);
  }

  /** C#'s integer division, which truncates toward zero. */
  function TruncDiv(a: int, b: int): int
    requires b > 0
  {
    if a >= 0 then a / b else -((-a) / b)
  }

  /** `TruncDiv` is C#'s `/`: the remainder `a - q * b` has the sign of the dividend and is
      smaller than the divisor in magnitude. */
  lemma TruncDivRemainder(a: int, b: int)
    requires b > 0
    ensures var q := TruncDiv(a, b);
      && (a >= 0 ==> 0 <= a - q * b < b)
      && (a < 0 ==> -b < a - q * b <= 0)
  {
  }

  /** Truncation differs from Dafny's Euclidean division on a negative dividend. */
  lemma TruncDivNegativeExample()
    ensures TruncDiv(-7, 6) == -1 && -7 / 6 == -2
  {
  }

  /** The item with the averaged price and volume written on `side`. */
  function WithTradeData(item: Item, side: Side, avg: real, volume: int): Item {
    match side
    case HighSide => item.(avgHighPrice := avg, highPriceVolume := volume)
    case LowSide => item.(avgLowPrice := avg, lowPriceVolume := volume)
  }

  function AvgPriceOf(item: Item, side: Side): real {
    match side
    case HighSide => item.avgHighPrice
    case LowSide => item.avgLowPrice
  }

  /** The item's window has trading volume. */
  predicate Traded(item: Item, side: Side, series: int -> seq<TimeSeriesEntry>) {
    TotalVolume(Window(series(item.id)), side) != 0
  }

  /** The item's window has at least one price. */
  predicate Priced(item: Item, side: Side, series: int -> seq<TimeSeriesEntry>) {
    ValidCount(Window(series(item.id)), side) != 0
  }

  function IsTraded(side: Side, series: int -> seq<TimeSeriesEntry>): Item -> bool {
    x => Traded(x, side, series)
  }

  /** The enriched item: average over the priced samples, volume over six time points. */
  function Apply(item: Item, side: Side, series: int -> seq<TimeSeriesEntry>): Item
    requires Priced(item, side, series)
  {
    var w := Window(series(item.id));
    WithTradeData(item, side, TotalPrice(w, side) as real / ValidCount(w, side) as real,
      TruncDiv(TotalVolume(w, side), TimeSeriesEntries))
  }

  /** Enrichment changes only the averaged price and the volume of its own side: the volume
      is the window's total over six time points, truncated, and the price the mean of the
      present prices. */
  lemma ApplyFields(item: Item, side: Side, series: int -> seq<TimeSeriesEntry>)
    requires Priced(item, side, series)
    ensures var r := Apply(item, side, series);
      && r.id == item.id && r.name == item.name && r.high == item.high && r.low == item.low
      && r.limit == item.limit && r.highAlch == item.highAlch
      && r.profitPerHighItem == item.profitPerHighItem && r.profitPerLowItem == item.profitPerLowItem
      && r.maxHighHourlyProfit == item.maxHighHourlyProfit && r.maxLowHourlyProfit == item.maxLowHourlyProfit
    ensures VolumeOf(Apply(item, side, series), side)
      == TruncDiv(TotalVolume(Window(series(item.id)), side), TimeSeriesEntries)
    ensures var r, w := Apply(item, side, series), Window(series(item.id));
      AvgPriceOf(r, side) * ValidCount(w, side) as real == TotalPrice(w, side) as real
    ensures var r := Apply(item, side, series);
      && (side == HighSide ==> r.lowPriceVolume == item.lowPriceVolume && r.avgLowPrice == item.avgLowPrice)
      && (side == LowSide ==> r.highPriceVolume == item.highPriceVolume && r.avgHighPrice == item.avgHighPrice)
  {
  }

  /** Every item enriched, in order. */
  function ApplyAll(items: seq<Item>, side: Side, series: int -> seq<TimeSeriesEntry>): (r: seq<Item>)
    requires forall x :: x in items ==> Priced(x, side, series)
    ensures |r| == |items|
    ensures forall i :: 0 <= i < |items| ==> r[i] == Apply(items[i], side, series)
  {
    if items == [] then []
    else [Apply(items[0], side, series)] + ApplyAll(items[1..], side, series)
  }

  /** What one iteration of the enrichment loop does with one item. */
  datatype Step = Skip | Add(item: Item) | Crash(error: EnrichError)

  function EnrichOne(item: Item, side: Side, series: int -> seq<TimeSeriesEntry>): Step {
    if !Traded(item, side, series) then Skip
    else if !Priced(item, side, series) then Crash(DivideByZero(item.id))
    else Add(Apply(item, side, series))
  }

  /** Adds one iteration's outcome to the result so far. */
  function Then(done: Result<seq<Item>, EnrichError>, step: Step): Result<seq<Item>, EnrichError> {
    match done
    case Failure(e) => Failure(e)
    case Success(acc) =>
      match step
      case Skip => Success(acc)
      case Add(x) => Success(acc + [x])
      case Crash(e) => Failure(e)
  }

  /** Runs the per-item steps over the items in order; the first crash ends the run. */
  function Fold(items: seq<Item>, step: Item -> Step): Result<seq<Item>, EnrichError> {
    if items == [] then Success([])
    else Then(Fold(items[..|items| - 1], step), step(items[|items| - 1]))
  }

  function StepOf(side: Side, series: int -> seq<TimeSeriesEntry>): Item -> Step {
    x => EnrichOne(x, side, series)
  }

  /** The enrichment loop as a fold over the items in order; the first division by zero
      ends the run. */
  function EnrichSpec(items: seq<Item>, side: Side, series: int -> seq<TimeSeriesEntry>): Result<seq<Item>, EnrichError>
  {
    Fold(items, StepOf(side, series))
  }

  /** The fold over one more item adds that item's step. */
  lemma FoldStep(items: seq<Item>, n: nat, step: Item -> Step)
    requires n < |items|
    ensures Fold(items[..n + 1], step) == Then(Fold(items[..n], step), step(items[n]))
  {
    PrefixOfPrefix(items, n + 1, n);
    assert items[..n + 1][n] == items[n];
  }

  /** Once the fold over the first `k` items has failed, the fold over the first `n >= k`
      fails with the same error. */
  lemma {:induction false} FoldFailureFrom(items: seq<Item>, k: nat, n: nat, step: Item -> Step)
    requires k <= n <= |items|
    requires Fold(items[..k], step).Failure?
    ensures Fold(items[..n], step) == Fold(items[..k], step)
    decreases n
  {
    if k < n {
      FoldFailureFrom(items, k, n - 1, step);
      FoldStep(items, n - 1, step);
      ThenFails(Fold(items[..n - 1], step), step(items[n - 1]));
    }
  }

  /** Once a prefix has failed, the whole run fails with the same error. */
  lemma FailurePersists(items: seq<Item>, k: nat, side: Side, series: int -> seq<TimeSeriesEntry>)
    requires k <= |items|
    requires EnrichSpec(items[..k], side, series).Failure?
    ensures EnrichSpec(items, side, series) == EnrichSpec(items[..k], side, series)
  {
    FoldFailureFrom(items, k, |items|, StepOf(side, series));
    FullPrefix(items);
  }

  /** The run over one more item adds that item's step. */
  lemma EnrichStep(items: seq<Item>, n: nat, side: Side, series: int -> seq<TimeSeriesEntry>)
    requires n < |items|
    ensures EnrichSpec(items[..n + 1], side, series)
      == Then(EnrichSpec(items[..n], side, series), EnrichOne(items[n], side, series))
  {
    FoldStep(items, n, StepOf(side, series));
  }

  /** One item's step, from the sums over its window. */
  lemma EnrichOneBySums(item: Item, side: Side, series: int -> seq<TimeSeriesEntry>,
                        totalPrice: int, totalVolume: int, validCount: nat)
    requires totalPrice == TotalPrice(Window(series(item.id)), side)
    requires totalVolume == TotalVolume(Window(series(item.id)), side)
    requires validCount == ValidCount(Window(series(item.id)), side)
    ensures EnrichOne(item, side, series)
      == if totalVolume == 0 then Skip
         else if validCount == 0 then Crash(DivideByZero(item.id))
         else Add(WithTradeData(item, side, totalPrice as real / validCount as real,
                                TruncDiv(totalVolume, TimeSeriesEntries)))
  {
  }

  /** One iteration of the enrichment loop, from the sums over the item's window: an idle
      item leaves the run unchanged, an item without a price ends the whole run with a
      division by zero, any other item is appended enriched. */
  lemma EnrichLoopStep(items: seq<Item>, n: nat, side: Side, series: int -> seq<TimeSeriesEntry>,
                       acc: seq<Item>, totalPrice: int, totalVolume: int, validCount: nat)
    requires n < |items|
    requires EnrichSpec(items[..n], side, series) == Success(acc)
    requires totalPrice == TotalPrice(Window(series(items[n].id)), side)
    requires totalVolume == TotalVolume(Window(series(items[n].id)), side)
    requires validCount == ValidCount(Window(series(items[n].id)), side)
    ensures totalVolume == 0 ==> EnrichSpec(items[..n + 1], side, series) == Success(acc)
    ensures totalVolume != 0 && validCount == 0 ==>
      EnrichSpec(items, side, series) == Failure(DivideByZero(items[n].id))
    ensures totalVolume != 0 && validCount != 0 ==>
      EnrichSpec(items[..n + 1], side, series)
        == Success(acc + [WithTradeData(items[n], side, totalPrice as real / validCount as real,
                                        TruncDiv(totalVolume, TimeSeriesEntries))])
  {
    EnrichStep(items, n, side, series);
    EnrichOneBySums(items[n], side, series, totalPrice, totalVolume, validCount);
    if totalVolume != 0 && validCount == 0 {
      FailurePersists(items, n + 1, side, series);
    }
  }

  /** One of the two enrichment loops of the report, `side` choosing which. */
  method EnrichItems(items: seq<Item>, side: Side, series: int -> seq<TimeSeriesEntry>)
    returns (r: Result<seq<Item>, EnrichError>)
    ensures r == EnrichSpec(items, side, series)
  {
    var withTradeData: seq<Item> := [];
    var n := 0;
    while n < |items|
      invariant 0 <= n <= |items|
      invariant EnrichSpec(items[..n], side, series) == Success(withTradeData)
    {
      var item := items[n];
      var totalPrice, totalVolume, validCount := Aggregate(series(item.id), side);
      EnrichLoopStep(items, n, side, series, withTradeData, totalPrice, totalVolume, validCount);
      n := n + 1;
      if totalVolume == 0 {
        continue;
      }
      var average: real := 0.0;
      if totalVolume != 0 {
        if validCount == 0 {
          return Failure(DivideByZero(item.id));
        }
        average := totalPrice as real / validCount as real;
      }
      withTradeData := withTradeData + [WithTradeData(item, side, average, TruncDiv(totalVolume, TimeSeriesEntries))];
    }
    assert items[..n] == items by {
      FullPrefix(items);
    }
    r := Success(withTradeData);
  }

  /** Items whose window could not be averaged, though they traded. */
  predicate Unpriceable(x: Item, side: Side, series: int -> seq<TimeSeriesEntry>) {
    Traded(x, side, series) && !Priced(x, side, series)
  }

  /** A failed run names a traded item of the input that has no price in its window. */
  lemma {:induction false} FailureNamesUnpriceable(items: seq<Item>, side: Side, series: int -> seq<TimeSeriesEntry>)
    requires EnrichSpec(items, side, series).Failure?
    ensures exists x :: x in items && Unpriceable(x, side, series) && EnrichSpec(items, side, series).error.itemId == x.id
  {
    assert items != [];
    var init, last := items[..|items| - 1], items[|items| - 1];
    var r := EnrichSpec(items, side, series);
    assert r == Then(EnrichSpec(init, side, series), EnrichOne(last, side, series));
    if EnrichSpec(init, side, series).Failure? {
      FailureNamesUnpriceable(init, side, series);
      var x :| x in init && Unpriceable(x, side, series) && EnrichSpec(init, side, series).error.itemId == x.id;
      assert x in items;
    } else {
      assert EnrichOne(last, side, series).Crash?;
      assert Unpriceable(last, side, series);
      assert r.error.itemId == last.id;
      assert last in items;
    }
  }

  lemma ThenFails(done: Result<seq<Item>, EnrichError>, step: Step)
    requires done.Failure? || step.Crash?
    ensures Then(done, step).Failure?
    ensures done.Failure? ==> Then(done, step) == done
  {
  }

  /** A traded item without any price in its window makes the run fail. */
  lemma {:induction false} UnpriceableFails(items: seq<Item>, i: nat, side: Side, series: int -> seq<TimeSeriesEntry>)
    requires i < |items| && Unpriceable(items[i], side, series)
    ensures EnrichSpec(items, side, series).Failure?
  {
    var init := items[..|items| - 1];
    assert EnrichSpec(items, side, series) == Then(EnrichSpec(init, side, series), EnrichOne(items[|items| - 1], side, series));
    if i < |init| {
      assert init[i] == items[i];
      UnpriceableFails(init, i, side, series);
      ThenFails(EnrichSpec(init, side, series), EnrichOne(items[|items| - 1], side, series));
    } else {
      assert i == |items| - 1;
      assert EnrichOne(items[i], side, series).Crash?;
      ThenFails(EnrichSpec(init, side, series), EnrichOne(items[|items| - 1], side, series));
    }
  }

  /** The enrichment fails exactly when some traded item has no price in its window. */
  lemma EnrichFailsIffUnpriceable(items: seq<Item>, side: Side, series: int -> seq<TimeSeriesEntry>)
    ensures EnrichSpec(items, side, series).Failure? <==> exists x :: x in items && Unpriceable(x, side, series)
  {
    if EnrichSpec(items, side, series).Failure? {
      FailureNamesUnpriceable(items, side, series);
    } else if x :| x in items && Unpriceable(x, side, series) {
      var i :| 0 <= i < |items| && items[i] == x;
      UnpriceableFails(items, i, side, series);
    }
  }

  /** On success every traded item has a price in its window. */
  lemma TradedArePriced(items: seq<Item>, side: Side, series: int -> seq<TimeSeriesEntry>)
    requires EnrichSpec(items, side, series).Success?
    ensures forall x :: x in Filter(items, IsTraded(side, series)) ==> Priced(x, side, series)
  {
    forall x | x in Filter(items, IsTraded(side, series)) ensures Priced(x, side, series) {
      if !Priced(x, side, series) {
        var i :| 0 <= i < |items| && items[i] == x;
        UnpriceableFails(items, i, side, series);
      }
    }
  }

  lemma {:induction false} ApplyAllAppend(a: seq<Item>, b: seq<Item>, side: Side, series: int -> seq<TimeSeriesEntry>)
    requires forall x :: x in a ==> Priced(x, side, series)
    requires forall x :: x in b ==> Priced(x, side, series)
    ensures forall x :: x in a + b ==> Priced(x, side, series)
    ensures ApplyAll(a + b, side, series) == ApplyAll(a, side, series) + ApplyAll(b, side, series)
  {
    var l, r := ApplyAll(a + b, side, series), ApplyAll(a, side, series) + ApplyAll(b, side, series);
    forall i | 0 <= i < |l| ensures l[i] == r[i] {
      if i < |a| {
        assert (a + b)[i] == a[i];
      } else {
        assert (a + b)[i] == b[i - |a|];
      }
    }
  }

  /** On success the output is exactly the traded items, in input order, each enriched. */
  lemma {:induction false} EnrichKeepsTradedInOrder(items: seq<Item>, side: Side, series: int -> seq<TimeSeriesEntry>)
    requires EnrichSpec(items, side, series).Success?
    ensures forall x :: x in Filter(items, IsTraded(side, series)) ==> Priced(x, side, series)
    ensures EnrichSpec(items, side, series).value == ApplyAll(Filter(items, IsTraded(side, series)), side, series)
  {
    TradedArePriced(items, side, series);
    var p := IsTraded(side, series);
    if items != [] {
      var init, last := items[..|items| - 1], items[|items| - 1];
      var done := EnrichSpec(init, side, series);
      assert EnrichSpec(items, side, series) == Then(done, EnrichOne(last, side, series));
      assert done.Success?;
      EnrichKeepsTradedInOrder(init, side, series);
      var kept := Filter(init, p);
      var tail := Filter([last], p);
      assert Filter(items, p) == kept + tail by {
        SplitLast(items);
        FilterAppend(init, [last], p);
      }
      assert p(last) == Traded(last, side, series);
      assert tail == if Traded(last, side, series) then [last] else [] by {
        assert [last][1..] == [];
      }
      if Traded(last, side, series) {
        assert Priced(last, side, series) by {
          assert last in Filter(items, p);
        }
        assert EnrichOne(last, side, series) == Add(Apply(last, side, series));
        ApplyAllAppend(kept, tail, side, series);
        assert ApplyAll(tail, side, series) == [Apply(last, side, series)];
      } else {
        assert kept + tail == kept;
      }
    }
  }

  /** Three samples with volumes 10, 20 and 30 give volume 60 / 6 = 10, not 60 / 3; the
      price averages the three present prices. */
  lemma FixedDivisorExample(item: Item, series: int -> seq<TimeSeriesEntry>)
    requires series(item.id) == [
      TimeSeriesEntry(Some(100), None, Some(10), None),
      TimeSeriesEntry(Some(110), None, Some(20), None),
      TimeSeriesEntry(Some(120), None, Some(30), None)]
    ensures EnrichOne(item, HighSide, series) == Add(item.(highPriceVolume := 10, avgHighPrice := 110.0))
  {
    var w := series(item.id);
    assert Window(w) == w;
    assert w[..|w| - 1] == w[..2] && w[..2][..1] == w[..1] && w[..1][..0] == [];
    assert TotalVolume(w[..1], HighSide) == 10 && TotalVolume(w[..2], HighSide) == 30;
    assert TotalVolume(w, HighSide) == 60;
    assert TotalPrice(w[..1], HighSide) == 100 && TotalPrice(w[..2], HighSide) == 210;
    assert TotalPrice(w, HighSide) == 330;
    assert ValidCount(w[..1], HighSide) == 1 && ValidCount(w[..2], HighSide) == 2;
    assert ValidCount(w, HighSide) == 3;
  }

  /** A window with no volume drops the item. */
  lemma IdleItemDropped(items: seq<Item>, item: Item, side: Side, series: int -> seq<TimeSeriesEntry>)
    requires EnrichSpec(items, side, series).Success?
    requires item in items && TotalVolume(Window(series(item.id)), side) == 0
    ensures forall y :: y in EnrichSpec(items, side, series).value ==> y.id != item.id
  {
    EnrichKeepsTradedInOrder(items, side, series);
    var kept := Filter(items, IsTraded(side, series));
    var out := EnrichSpec(items, side, series).value;
    forall y | y in out ensures y.id != item.id {
      var i :| 0 <= i < |out| && out[i] == y;
      var c := kept[i];
      assert c in kept && Traded(c, side, series) by {
        assert c in kept;
        assert IsTraded(side, series)(c);
      }
      assert y.id == c.id by {
        ApplyFields(c, side, series);
      }
    }
  }

  /** A traded sample window with volume but no price crashes the loop. */
  lemma DivideByZeroExample(item: Item, side: Side, series: int -> seq<TimeSeriesEntry>)
    requires series(item.id) == [TimeSeriesEntry(None, None, Some(5), Some(5))]
    ensures EnrichSpec([item], side, series) == Failure(DivideByZero(item.id))
  {
    var w := series(item.id);
    assert Window(w) == w;
    assert w[..|w| - 1] == [] && w[|w| - 1] == TimeSeriesEntry(None, None, Some(5), Some(5));
    assert VolumeOn(w[|w| - 1], side) == 5 && PriceOn(w[|w| - 1], side).None?;
    assert TotalVolume(w, side) == 5 && ValidCount(w, side) == 0;
    assert EnrichOne(item, side, series) == Crash(DivideByZero(item.id));
    assert [item][..0] == [] && [item][0] == item;
    assert Fold([item], StepOf(side, series)) == Then(Success([]), EnrichOne(item, side, series));
  }
}
