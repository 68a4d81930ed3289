/** The item catalog: the latest-price snapshot inner-joined with the item mapping,
    with the per-item and per-hour high-alchemy profit and the candidate filter. */
module Catalog {
  import opened Wrappers
  import opened Seqs

  /** Item id of the nature rune, whose price is the cost of one cast. */
  const NatureRuneId := 561
  /** System-wide ceiling on the buy limit. */
  const LimitCeiling := 1200

  /** One entry of the latest-prices snapshot, keyed by item id; every field may be missing. */
  datatype PriceEntry = PriceEntry(
    id: int,
    high: Option<int>,
    low: Option<int>,
    highPriceVolume: Option<int>,
    lowPriceVolume: Option<int>)

  /** One entry of the item mapping. */
  datatype MappingEntry = MappingEntry(
    id: int,
    name: string,
    highalch: Option<int>,
    limit: Option<int>)

  /** The program's `Item` record; prices and profits are whole coins. */
  datatype Item = Item(
    id: int,
    name: string,
    high: int,
    low: int,
    limit: int,
    highAlch: int,
    profitPerHighItem: int,
    profitPerLowItem: int,
    avgHighPrice: real,
    avgLowPrice: real,
    highPriceVolume: int,
    lowPriceVolume: int,
    maxHighHourlyProfit: int,
    maxLowHourlyProfit: int)

  /** Which side of the market a volume or average price refers to. */
  datatype Side = HighSide | LowSide

  function VolumeOf(item: Item, side: Side): int {
    match side
    case HighSide => item.highPriceVolume
    case LowSide => item.lowPriceVolume
  }

  /** A parsed JSON object has one property per key. */
  ghost predicate DistinctIds(snapshot: seq<PriceEntry>) {
    forall i, j :: 0 <= i < j < |snapshot| ==> snapshot[i].id != snapshot[j].id
  }

  /** The snapshot entry stored under `id`, if any. */
  function FindEntry(snapshot: seq<PriceEntry>, id: int): (r: Option<PriceEntry>)
    ensures r.Some? ==> r.value in snapshot && r.value.id == id
    ensures r.None? ==> forall e :: e in snapshot ==> e.id != id
  {
    if snapshot == [] then None
    else if snapshot[0].id == id then Some(snapshot[0])
    else FindEntry(snapshot[1..], id)
  }

  /** `GetNatureRuneCost`: the `high` price of the nature rune, or 0 when the entry or its
      `high` field is missing (the lookup never fails). */
  function NatureRuneCost(snapshot: seq<PriceEntry>): (cost: int)
    ensures cost != 0 ==> exists e :: e in snapshot && e.id == NatureRuneId && e.high == Some(cost)
    ensures (forall e :: e in snapshot ==> e.id != NatureRuneId) ==> cost == 0
  {
    match FindEntry(snapshot, NatureRuneId)
    case Some(e) => e.high.GetOr(0)
    case None => 0
  }

  /** With one entry per key, the cost is exactly that entry's `high` price (0 if missing). */
  lemma NatureRuneCostOfEntry(snapshot: seq<PriceEntry>, e: PriceEntry)
    requires DistinctIds(snapshot)
    requires e in snapshot && e.id == NatureRuneId
    ensures NatureRuneCost(snapshot) == e.high.GetOr(0)
  {
    var found := FindEntry(snapshot, NatureRuneId);
    assert found.Some?;
    var i :| 0 <= i < |snapshot| && snapshot[i] == e;
    var j :| 0 <= j < |snapshot| && snapshot[j] == found.value;
  }

  /** `ExtractItemDetails`: an item carrying the snapshot's prices and volumes, missing
      fields defaulted to 0; the mapping fields are not yet set. */
  function ExtractItemDetails(e: PriceEntry): (item: Item)
    ensures item.id == e.id
    ensures e.high.None? ==> item.high == 0
    ensures e.low.None? ==> item.low == 0
    ensures e.highPriceVolume.None? ==> item.highPriceVolume == 0
    ensures e.lowPriceVolume.None? ==> item.lowPriceVolume == 0
    ensures e.high.Some? ==> item.high == e.high.value
    ensures e.low.Some? ==> item.low == e.low.value
    ensures e.highPriceVolume.Some? ==> item.highPriceVolume == e.highPriceVolume.value
    ensures e.lowPriceVolume.Some? ==> item.lowPriceVolume == e.lowPriceVolume.value
    ensures item.name == "" && item.limit == 0 && item.highAlch == 0
    ensures item.profitPerHighItem == 0 && item.profitPerLowItem == 0
    ensures item.maxHighHourlyProfit == 0 && item.maxLowHourlyProfit == 0
    ensures item.avgHighPrice == 0.0 && item.avgLowPrice == 0.0
  {
    Item(e.id, "", e.high.GetOr(0), e.low.GetOr(0), 0, 0, 0, 0, 0.0, 0.0,
      e.highPriceVolume.GetOr(0), e.lowPriceVolume.GetOr(0), 0, 0)
  }

  function Min(a: int, b: int): int {
    if a < b then a else b
  }

  /** `CombineItemAndMapping`: copies name, high-alchemy value and (clamped) limit from the
      mapping entry and derives the profits. */
  function CombineItemAndMapping(item: Item, m: MappingEntry, natureRuneCost: int): (r: Item)
    ensures r.id == item.id && r.high == item.high && r.low == item.low
    ensures r.highPriceVolume == item.highPriceVolume && r.lowPriceVolume == item.lowPriceVolume
    ensures r.avgHighPrice == item.avgHighPrice && r.avgLowPrice == item.avgLowPrice
    ensures r.name == m.name && r.highAlch == m.highalch.GetOr(0)
    ensures r.limit <= LimitCeiling
    ensures m.limit.GetOr(0) <= LimitCeiling ==> r.limit == m.limit.GetOr(0)
    ensures m.limit.GetOr(0) > LimitCeiling ==> r.limit == LimitCeiling
    ensures r.highAlch == r.high + natureRuneCost + r.profitPerHighItem
    ensures r.highAlch == r.low + natureRuneCost + r.profitPerLowItem
    ensures r.maxHighHourlyProfit == r.profitPerHighItem * r.limit
    ensures r.maxLowHourlyProfit == r.profitPerLowItem * r.limit
  {
    var highAlch := m.highalch.GetOr(0);
    var limit := Min(m.limit.GetOr(0), LimitCeiling);
    var profitHigh := highAlch - item.high - natureRuneCost;
    var profitLow := highAlch - item.low - natureRuneCost;
    item.(name := m.name, highAlch := highAlch, limit := limit,
          profitPerHighItem := profitHigh, profitPerLowItem := profitLow,
          maxHighHourlyProfit := profitHigh * limit, maxLowHourlyProfit := profitLow * limit)
  }

  /** The record the join produces for a snapshot entry and a mapping entry. */
  function Combined(e: PriceEntry, m: MappingEntry, natureRuneCost: int): Item {
    CombineItemAndMapping(ExtractItemDetails(e), m, natureRuneCost)
  }

  /** The join results for one snapshot entry, in mapping order. */
  function Matches(e: PriceEntry, mapping: seq<MappingEntry>, natureRuneCost: int): (r: seq<Item>)
    ensures forall x :: x in r <==>
      exists m :: m in mapping && m.id == e.id && x == Combined(e, m, natureRuneCost)
  {
    if mapping == [] then []
    else
      (if mapping[0].id == e.id then [Combined(e, mapping[0], natureRuneCost)] else [])
      + Matches(e, mapping[1..], natureRuneCost)
  }

  /** LINQ `Join` of the snapshot (outer) with the mapping (inner) on the item id. */
  function Joined(snapshot: seq<PriceEntry>, mapping: seq<MappingEntry>, natureRuneCost: int): (r: seq<Item>)
    ensures forall x :: x in r <==>
      exists e, m :: e in snapshot && m in mapping && e.id == m.id && x == Combined(e, m, natureRuneCost)
  {
    if snapshot == [] then []
    else Matches(snapshot[0], mapping, natureRuneCost) + Joined(snapshot[1..], mapping, natureRuneCost)
  }

  /** The candidate filter of `ExtractItems`. */
  predicate Keep(item: Item) {
    item.limit > 0 && (item.profitPerHighItem > 0 || item.profitPerLowItem > 0)
  }

  /** `ExtractItems`: the inner join, filtered by the candidate invariant. */
  function ExtractItems(snapshot: seq<PriceEntry>, mapping: seq<MappingEntry>, natureRuneCost: int): (r: seq<Item>)
    ensures forall x :: x in r ==> Keep(x) && x.limit <= LimitCeiling
    ensures forall x :: x in r <==>
      Keep(x) && exists e, m :: e in snapshot && m in mapping && e.id == m.id && x == Combined(e, m, natureRuneCost)
  {
    Filter(Joined(snapshot, mapping, natureRuneCost), Keep)
  }

  /** Inner join: every catalog item's id occurs in the snapshot and in the mapping, and its
      fields are those of a matching pair with missing fields read as 0. */
  lemma CatalogItemFields(snapshot: seq<PriceEntry>, mapping: seq<MappingEntry>, natureRuneCost: int, x: Item)
    requires x in ExtractItems(snapshot, mapping, natureRuneCost)
    ensures 0 < x.limit <= LimitCeiling
    ensures x.profitPerHighItem > 0 || x.profitPerLowItem > 0
    ensures exists e, m ::
      && e in snapshot && m in mapping && e.id == m.id == x.id
      && x.high == e.high.GetOr(0) && x.low == e.low.GetOr(0)
      && x.highPriceVolume == e.highPriceVolume.GetOr(0) && x.lowPriceVolume == e.lowPriceVolume.GetOr(0)
      && x.name == m.name && x.highAlch == m.highalch.GetOr(0)
      && x.limit == Min(m.limit.GetOr(0), LimitCeiling)
      && x.profitPerHighItem == x.highAlch - x.high - natureRuneCost
      && x.profitPerLowItem == x.highAlch - x.low - natureRuneCost
      && x.maxHighHourlyProfit == x.profitPerHighItem * x.limit
      && x.maxLowHourlyProfit == x.profitPerLowItem * x.limit
  {
    var e, m :| e in snapshot && m in mapping && e.id == m.id && x == Combined(e, m, natureRuneCost);
    assert x.high == e.high.GetOr(0) && x.low == e.low.GetOr(0);
  }

  /** An id missing from the mapping never reaches the catalog. */
  lemma UnmappedIdDropped(snapshot: seq<PriceEntry>, mapping: seq<MappingEntry>, natureRuneCost: int, id: int)
    requires forall m :: m in mapping ==> m.id != id
    ensures forall x :: x in ExtractItems(snapshot, mapping, natureRuneCost) ==> x.id != id
  {
  }

  /** A mapping limit of 5000 is clamped to 1200; a limit of 300 is kept. */
  lemma LimitClampExamples(item: Item, name: string)
    ensures CombineItemAndMapping(item, MappingEntry(1, name, Some(1000), Some(5000)), 180).limit == 1200
    ensures CombineItemAndMapping(item, MappingEntry(1, name, Some(1000), Some(300)), 180).limit == 300
  {
  }

  /** High-alchemy value 1000, instant buy price 400 and cast cost 180 give a profit of 420. */
  lemma ProfitExample(e: PriceEntry, name: string)
    requires e.high == Some(400)
    ensures Combined(e, MappingEntry(e.id, name, Some(1000), Some(100)), 180).profitPerHighItem == 420
  {
  }
}
