/** The report as a whole: the catalog ranked two ways, the best candidates enriched with
    their recent trading, then cut by volume and to the display length. */
module Pipeline {
  import opened Wrappers
  import opened Seqs
  import opened Sorting
  import opened Catalog
  import opened Ranking
  import opened Enricher

  /** How many of each ranking are enriched. */
  const HighCandidates := 30
  const LowCandidates := 100
  /** Volumes a displayed item must strictly exceed. */
  const HighVolumeThreshold := 100
  const LowVolumeThreshold := 6
  /** How many rows each table shows. */
  const HighRows := 10
  const LowRows := 20

  /** The two tables: by hourly instant-buy profit (30-minute window) and by per-item
      offer profit (6-hour window). */
  datatype Report = Report(highRows: seq<Item>, lowRows: seq<Item>)

  /** The high-side candidates: the catalog's best 30 by hourly profit. */
  function HighCandidateList(catalog: seq<Item>): seq<Item> {
    TakeFirst(SortDescending(catalog, KeySelector(ByMaxHighHourlyProfit)), HighCandidates)
  }

  /** The low-side candidates: the catalog's best 100 by per-item offer profit. */
  function LowCandidateList(catalog: seq<Item>): seq<Item> {
    TakeFirst(SortDescending(catalog, KeySelector(ByProfitPerLowItem)), LowCandidates)
  }

  /** The displayed rows of one side, from its enriched list. */
  function Rows(enriched: seq<Item>, side: Side): seq<Item> {
    match side
    case HighSide => TakeFirst(AboveVolume(enriched, HighSide, HighVolumeThreshold), HighRows)
    case LowSide => TakeFirst(AboveVolume(enriched, LowSide, LowVolumeThreshold), LowRows)
  }

  /** The report computed from the snapshot, the mapping and each item's time series on
      each side; a division by zero in the high loop stops the run before the low loop. */
  function BuildReport(snapshot: seq<PriceEntry>, mapping: seq<MappingEntry>,
                       highSeries: int -> seq<TimeSeriesEntry>, lowSeries: int -> seq<TimeSeriesEntry>)
    : (r: Result<Report, EnrichError>)
  {
    var catalog := ExtractItems(snapshot, mapping, NatureRuneCost(snapshot));
    var high :- EnrichSpec(HighCandidateList(catalog), HighSide, highSeries);
    var low :- EnrichSpec(LowCandidateList(catalog), LowSide, lowSeries);
    Success(Report(Rows(high, HighSide), Rows(low, LowSide)))
  }

  /** The body of the program after the downloads: the two enrichment loops run in turn. */
  method Analyze(snapshot: seq<PriceEntry>, mapping: seq<MappingEntry>,
                 highSeries: int -> seq<TimeSeriesEntry>, lowSeries: int -> seq<TimeSeriesEntry>)
    returns (r: Result<Report, EnrichError>)
    ensures r == BuildReport(snapshot, mapping, highSeries, lowSeries)
  {
    var natureRuneCost := NatureRuneCost(snapshot);
    var extractedItems := ExtractItems(snapshot, mapping, natureRuneCost);
    var high := EnrichItems(HighCandidateList(extractedItems), HighSide, highSeries);
    if high.Failure? {
      return Failure(high.error);
    }
    var low := EnrichItems(LowCandidateList(extractedItems), LowSide, lowSeries);
    if low.Failure? {
      return Failure(low.error);
    }
    r := Success(Report(Rows(high.value, HighSide), Rows(low.value, LowSide)));
  }

  /** Enrichment keeps both sort keys. */
  lemma ApplyKeepsKeys(x: Item, side: Side, series: int -> seq<TimeSeriesEntry>, key: SortKey)
    requires Priced(x, side, series)
    ensures KeyOf(Apply(x, side, series), key) == KeyOf(x, key)
  {
    ApplyFields(x, side, series);
  }

  /** Enriching a descending list leaves it descending. */
  lemma ApplyAllKeepsSorted(items: seq<Item>, side: Side, series: int -> seq<TimeSeriesEntry>, key: SortKey)
    requires forall x :: x in items ==> Priced(x, side, series)
    requires SortedDesc(items, KeySelector(key))
    ensures SortedDesc(ApplyAll(items, side, series), KeySelector(key))
  {
    var r := ApplyAll(items, side, series);
    forall i, j | 0 <= i < j < |r| ensures KeyOf(r[i], key) >= KeyOf(r[j], key) {
      ApplyKeepsKeys(items[i], side, series, key);
      ApplyKeepsKeys(items[j], side, series, key);
    }
  }

  /** The enrichment loop keeps the order of its candidates. */
  lemma EnrichedSorted(candidates: seq<Item>, side: Side, series: int -> seq<TimeSeriesEntry>, key: SortKey)
    requires EnrichSpec(candidates, side, series).Success?
    requires SortedDesc(candidates, KeySelector(key))
    ensures SortedDesc(EnrichSpec(candidates, side, series).value, KeySelector(key))
  {
    var traded := Filter(candidates, IsTraded(side, series));
    EnrichKeepsTradedInOrder(candidates, side, series);
    FilterKeepsSorted(candidates, IsTraded(side, series), KeySelector(key));
    ApplyAllKeepsSorted(traded, side, series, key);
  }

  /** Every item the enrichment loop outputs is a traded candidate, enriched. */
  lemma EnrichedFromCandidates(candidates: seq<Item>, side: Side, series: int -> seq<TimeSeriesEntry>)
    requires EnrichSpec(candidates, side, series).Success?
    ensures forall x :: x in EnrichSpec(candidates, side, series).value ==>
      exists c :: c in candidates && Traded(c, side, series) && Priced(c, side, series)
        && x == Apply(c, side, series)
  {
    var traded := Filter(candidates, IsTraded(side, series));
    EnrichKeepsTradedInOrder(candidates, side, series);
    var enriched := EnrichSpec(candidates, side, series).value;
    forall x | x in enriched
      ensures exists c :: c in candidates && Traded(c, side, series) && Priced(c, side, series)
                && x == Apply(c, side, series)
    {
      var i :| 0 <= i < |enriched| && enriched[i] == x;
      var c := traded[i];
      assert c in traded;
      assert IsTraded(side, series)(c);
    }
  }

  /** The rows of one side, given the candidates that entered its enrichment loop: each is a
      traded candidate enriched, with volume above the threshold; they keep the ranking's
      order and the display length. */
  lemma RowsOfSide(candidates: seq<Item>, side: Side, series: int -> seq<TimeSeriesEntry>,
                   key: SortKey, threshold: int, cut: nat)
    requires EnrichSpec(candidates, side, series).Success?
    requires SortedDesc(candidates, KeySelector(key))
    requires (side, threshold, cut) == (HighSide, HighVolumeThreshold, HighRows)
          || (side, threshold, cut) == (LowSide, LowVolumeThreshold, LowRows)
    ensures var rows := Rows(EnrichSpec(candidates, side, series).value, side);
      && |rows| <= cut
      && SortedDesc(rows, KeySelector(key))
      && forall x :: x in rows ==>
           && VolumeOf(x, side) > threshold
           && exists c :: c in candidates && Traded(c, side, series) && Priced(c, side, series)
                && x == Apply(c, side, series)
  {
    var enriched := EnrichSpec(candidates, side, series).value;
    EnrichedSorted(candidates, side, series, key);
    EnrichedFromCandidates(candidates, side, series);
    var above := AboveVolume(enriched, side, threshold);
    FilterKeepsSorted(enriched, VolumeAbove(side, threshold), KeySelector(key));
    TakeKeepsSorted(above, cut, KeySelector(key));
    assert Rows(enriched, side) == TakeFirst(above, cut);
  }

  /** Every displayed row is a catalog item, enriched: it has a positive limit of at most
      1200 and a profitable side, its volume is above its table's threshold, and each table is
      in descending order of its ranking key and at most its display length. */
  lemma ReportRows(snapshot: seq<PriceEntry>, mapping: seq<MappingEntry>,
                   highSeries: int -> seq<TimeSeriesEntry>, lowSeries: int -> seq<TimeSeriesEntry>)
    requires BuildReport(snapshot, mapping, highSeries, lowSeries).Success?
    ensures var report := BuildReport(snapshot, mapping, highSeries, lowSeries).value;
      && |report.highRows| <= HighRows && |report.lowRows| <= LowRows
      && SortedDesc(report.highRows, KeySelector(ByMaxHighHourlyProfit))
      && SortedDesc(report.lowRows, KeySelector(ByProfitPerLowItem))
    ensures var report := BuildReport(snapshot, mapping, highSeries, lowSeries).value;
      forall x :: x in report.highRows ==> x.highPriceVolume > HighVolumeThreshold
    ensures var report := BuildReport(snapshot, mapping, highSeries, lowSeries).value;
      forall x :: x in report.lowRows ==> x.lowPriceVolume > LowVolumeThreshold
    ensures var report := BuildReport(snapshot, mapping, highSeries, lowSeries).value;
      forall x :: x in report.highRows + report.lowRows ==>
        Keep(x) && x.limit <= LimitCeiling
  {
    var catalog := ExtractItems(snapshot, mapping, NatureRuneCost(snapshot));
    var highCandidates := HighCandidateList(catalog);
    var lowCandidates := LowCandidateList(catalog);
    TakeKeepsSorted(SortDescending(catalog, KeySelector(ByMaxHighHourlyProfit)), HighCandidates, KeySelector(ByMaxHighHourlyProfit));
    TakeKeepsSorted(SortDescending(catalog, KeySelector(ByProfitPerLowItem)), LowCandidates, KeySelector(ByProfitPerLowItem));
    RowsOfSide(highCandidates, HighSide, highSeries, ByMaxHighHourlyProfit, HighVolumeThreshold, HighRows);
    RowsOfSide(lowCandidates, LowSide, lowSeries, ByProfitPerLowItem, LowVolumeThreshold, LowRows);
    var report := BuildReport(snapshot, mapping, highSeries, lowSeries).value;
    forall x | x in report.highRows + report.lowRows ensures Keep(x) && x.limit <= LimitCeiling {
      if x in report.highRows {
        var c :| c in highCandidates && Priced(c, HighSide, highSeries) && x == Apply(c, HighSide, highSeries);
        TakenFromInput(catalog, HighCandidates, KeySelector(ByMaxHighHourlyProfit), c);
        ApplyFields(c, HighSide, highSeries);
      } else {
        var c :| c in lowCandidates && Priced(c, LowSide, lowSeries) && x == Apply(c, LowSide, lowSeries);
        TakenFromInput(catalog, LowCandidates, KeySelector(ByProfitPerLowItem), c);
        ApplyFields(c, LowSide, lowSeries);
      }
    }
  }

  /** The high loop runs first: when it divides by zero the run stops with that error,
      whatever the low side's data. */
  lemma HighFailureFirst(snapshot: seq<PriceEntry>, mapping: seq<MappingEntry>,
                         highSeries: int -> seq<TimeSeriesEntry>, lowSeries: int -> seq<TimeSeriesEntry>)
    requires EnrichSpec(HighCandidateList(ExtractItems(snapshot, mapping, NatureRuneCost(snapshot))),
                        HighSide, highSeries).Failure?
    ensures BuildReport(snapshot, mapping, highSeries, lowSeries)
      == Failure(EnrichSpec(HighCandidateList(ExtractItems(snapshot, mapping, NatureRuneCost(snapshot))),
                            HighSide, highSeries).error)
  {
  }
}
