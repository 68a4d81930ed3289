/** The ranking keys of the report's two sorts of the catalog, and the strict volume
    thresholds applied to the enriched lists. */
module Ranking {
  import opened Seqs
  import opened Catalog

  /** The two sort keys used by the report. */
  datatype SortKey = ByMaxHighHourlyProfit | ByProfitPerLowItem

  function KeyOf(item: Item, key: SortKey): int {
    match key
    case ByMaxHighHourlyProfit => item.maxHighHourlyProfit
    case ByProfitPerLowItem => item.profitPerLowItem
  }

  /** The key selector passed to `OrderByDescending`. */
  function KeySelector(key: SortKey): Item -> int {
    x => KeyOf(x, key)
  }

  /** Selects the items whose volume on `side` is strictly above `threshold`. */
  function VolumeAbove(side: Side, threshold: int): Item -> bool {
    x => VolumeOf(x, side) > threshold
  }

  /** The `Where(volume > threshold)` step before display. */
  function AboveVolume(items: seq<Item>, side: Side, threshold: int): (r: seq<Item>)
    ensures forall x :: x in r <==> x in items && VolumeOf(x, side) > threshold
    ensures forall x :: multiset(r)[x] == if VolumeOf(x, side) > threshold then multiset(items)[x] else 0
  {
    var r := Filter(items, VolumeAbove(side, threshold));
    assert forall x :: multiset(r)[x] == if VolumeOf(x, side) > threshold then multiset(items)[x] else 0 by {
      forall x { FilterMultiplicity(items, VolumeAbove(side, threshold), x); }
    }
    r
  }

  /** The high-side display threshold is strict: volume 100 is excluded, 101 kept. */
  lemma HighThresholdIsStrict(x: Item, y: Item)
    requires x.highPriceVolume == 100 && y.highPriceVolume == 101
    ensures AboveVolume([x, y], HighSide, 100) == [y]
  {
    var p := VolumeAbove(HighSide, 100);
    assert !p(x) && p(y);
    assert [x, y][1..] == [y] && [y][1..] == [];
    assert Filter([y], p) == [y];
  }
}
