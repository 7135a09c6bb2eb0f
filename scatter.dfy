/** The scatter callback (`update_scatter_chart`): the rows whose payload lies
    in the slider's range and, unless every site is selected, whose launch
    site is the selected one. */
module Scatter {
  import opened Seqs
  import opened Launches

  /** What the callback hands to the plotting library: the selected rows (one
      point per row, payload against class) and the chart title. */
  datatype ScatterChart = ScatterChart(rows: seq<Launch>, title: string)

  /** The conjunction of both masks as a single row predicate. */
  function Keeps(site: string, low: real, high: real): Launch -> bool {
    (l: Launch) => low <= l.payload <= high && (site == AllSites || l.site == site)
  }

  /** The payload mask first, then the site mask when a site is selected.
      A record is shown exactly when its payload is in the inclusive range
      and, unless all sites are selected, it was launched from the selected
      site; the result is the single-mask selection, so the order of the two
      masks is not observable. */
  function SelectScatter(ds: Dataset, site: string, low: real, high: real): (r: seq<Launch>)
    ensures forall x :: x in r <==> x in ds && low <= x.payload <= high && (site == AllSites || x.site == site)
    ensures r == Filter(ds, Keeps(site, low, high))
  {
    FilterMembership(ds, Keeps(site, low, high));
    var inRange := Filter(ds, PayloadBetween(low, high));
    if site == AllSites then
      FilterAgree(ds, PayloadBetween(low, high), Keeps(site, low, high));
      inRange
    else
      FilterConjunction(ds, PayloadBetween(low, high), OnSite(site), Keeps(site, low, high));
      Filter(inRange, OnSite(site))
  }

  /** The title names the selection: a fixed text for all sites, otherwise
      a fixed prefix followed by the selected site's name. */
  function ScatterTitle(site: string): (t: string)
    ensures site == AllSites ==> t == "Correlation between PayLoad an success for All Sites"
    ensures site != AllSites ==>
              |t| == 48 + |site| && t[..48] == "Correlation between PayLoad an success for Site " &&
              t[48..] == site
  {
    if site == AllSites then "Correlation between PayLoad an success for All Sites"
    else "Correlation between PayLoad an success for Site " + site
  }

  /** The whole callback, with the slider value unpacked into its bounds.
      Its rows are the selection for that range: each qualifying record as
      often as in the dataset and no other record, in the dataset's order. */
  function UpdateScatterChart(ds: Dataset, site: string, payloadRange: (real, real)): (chart: ScatterChart)
    ensures chart.rows == SelectScatter(ds, site, payloadRange.0, payloadRange.1)
    ensures forall x :: x in chart.rows <==>
              x in ds && payloadRange.0 <= x.payload <= payloadRange.1 && (site == AllSites || x.site == site)
    ensures forall x :: multiset(chart.rows)[x] ==
              if payloadRange.0 <= x.payload <= payloadRange.1 && (site == AllSites || x.site == site)
              then multiset(ds)[x] else 0
    ensures IsSubsequence(chart.rows, ds)
    ensures chart.title == ScatterTitle(site)
  {
    FilterIsSubsequence(ds, Keeps(site, payloadRange.0, payloadRange.1));
    FilterCounts(ds, Keeps(site, payloadRange.0, payloadRange.1));
    var (low, high) := payloadRange;
    ScatterChart(SelectScatter(ds, site, low, high), ScatterTitle(site))
  }

  /** No record is invented or duplicated, and none that qualifies is lost:
      each record appears as often as in the dataset if it qualifies, else
      not at all. */
  lemma ScatterMultiplicity(ds: Dataset, site: string, low: real, high: real, x: Launch)
    ensures multiset(SelectScatter(ds, site, low, high))[x] ==
            if low <= x.payload <= high && (site == AllSites || x.site == site)
            then multiset(ds)[x] else 0
  {
    FilterMultiplicity(ds, Keeps(site, low, high), x);
  }

  /** The selection keeps the dataset's order and is no larger than it. */
  lemma ScatterIsSubsequence(ds: Dataset, site: string, low: real, high: real)
    ensures IsSubsequence(SelectScatter(ds, site, low, high), ds)
    ensures multiset(SelectScatter(ds, site, low, high)) <= multiset(ds)
  {
    FilterIsSubsequence(ds, Keeps(site, low, high));
    SubsequenceBounds(SelectScatter(ds, site, low, high), ds);
  }

  /** Widening the slider range never removes a record, and keeps the
      records of the narrower range in the same order. */
  lemma ScatterMonotone(ds: Dataset, site: string, low: real, high: real, low': real, high': real)
    requires low' <= low && high <= high'
    ensures IsSubsequence(SelectScatter(ds, site, low, high), SelectScatter(ds, site, low', high'))
    ensures multiset(SelectScatter(ds, site, low, high)) <= multiset(SelectScatter(ds, site, low', high'))
  {
    FilterWeaker(ds, Keeps(site, low, high), Keeps(site, low', high'));
    SubsequenceBounds(SelectScatter(ds, site, low, high), SelectScatter(ds, site, low', high'));
  }

  /** An inverted range selects nothing, at any site. */
  lemma ScatterEmptyRange(ds: Dataset, site: string, low: real, high: real)
    requires low > high
    ensures SelectScatter(ds, site, low, high) == []
  {
    FilterKeepsNone(ds, Keeps(site, low, high));
  }

  /** A single-point range over all sites selects exactly the records of
      that payload, from every site. */
  lemma ScatterSinglePoint(ds: Dataset, v: real)
    ensures SelectScatter(ds, AllSites, v, v) == Filter(ds, (l: Launch) => l.payload == v)
  {
    FilterAgree(ds, Keeps(AllSites, v, v), (l: Launch) => l.payload == v);
  }

  /** When every payload lies within the slider's own bounds (0 to 10000 kg),
      the slider's full range leaves only the site mask: every record for all
      sites, and every record of the selected site otherwise, whatever its
      outcome. */
  lemma ScatterFullSlider(ds: Dataset, site: string)
    requires forall i :: 0 <= i < |ds| ==> 0.0 <= ds[i].payload <= 10000.0
    ensures SelectScatter(ds, site, 0.0, 10000.0) ==
            if site == AllSites then ds else Filter(ds, OnSite(site))
  {
    if site == AllSites {
      FilterKeepsAll(ds, Keeps(site, 0.0, 10000.0));
    } else {
      FilterAgree(ds, Keeps(site, 0.0, 10000.0), OnSite(site));
    }
  }

  /** Distinct site selections give distinct titles, so the title tells which
      site is shown. */
  lemma ScatterTitleDeterminesSite(site1: string, site2: string)
    requires site1 != site2
    ensures ScatterTitle(site1) != ScatterTitle(site2)
  {
    var prefix := "Correlation between PayLoad an success for ";
    var t1, t2 := ScatterTitle(site1), ScatterTitle(site2);
    if site1 != AllSites && site2 != AllSites {
      assert site1 == t1[|prefix| + 5..];
      assert site2 == t2[|prefix| + 5..];
    } else {
      assert t1[|prefix|] != t2[|prefix|];
    }
  }
}
