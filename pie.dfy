/** The pie callback (`get_pie_chart`): which rows are counted, by which
    column they are grouped, the title, and the slices the grouping yields. */
module Pie {
  import opened Seqs
  import opened Launches
  import Scatter

  /** The column passed as `names`: slices are the distinct values of it. */
  datatype GroupKey = BySite | ByClass

  /** A slice's label: a launch site, or an outcome class. */
  datatype Label = SiteLabel(site: string) | ClassLabel(cls: int)

  /** One slice: a label and the number of rows that carry it. */
  datatype Slice = Slice(name: Label, count: nat)

  /** What the callback hands to the plotting library. */
  datatype PieChart = PieChart(rows: seq<Launch>, names: GroupKey, title: string)

  function LabelOf(key: GroupKey, l: Launch): Label {
    match key
    case BySite => SiteLabel(l.site)
    case ByClass => ClassLabel(l.cls)
  }

  function HasLabel(key: GroupKey, v: Label): Launch -> bool {
    (l: Launch) => LabelOf(key, l) == v
  }

  /** The number of rows whose grouping column has value `v`. */
  function CountLabel(rows: seq<Launch>, key: GroupKey, v: Label): nat {
    |Filter(rows, HasLabel(key, v))|
  }

  /** Whether some slice carries label `v`. */
  predicate HasSlice(slices: seq<Slice>, v: Label) {
    slices != [] && (slices[0].name == v || HasSlice(slices[1..], v))
  }

  /** No label names two slices. */
  predicate DistinctLabels(slices: seq<Slice>) {
    slices == [] || (!HasSlice(slices[1..], slices[0].name) && DistinctLabels(slices[1..]))
  }

  /** The size of the slice labelled `v`, or 0 when there is none. */
  function CountOf(slices: seq<Slice>, v: Label): nat {
    if slices == [] then 0
    else if slices[0].name == v then slices[0].count
    else CountOf(slices[1..], v)
  }

  /** The sum of all slice sizes: the whole of the pie. */
  function Total(slices: seq<Slice>): nat {
    if slices == [] then 0 else slices[0].count + Total(slices[1..])
  }

  /** Counts one more row labelled `v`: its slice grows by one, or a new
      slice of one appears. */
  function Bump(slices: seq<Slice>, v: Label): (r: seq<Slice>)
    requires DistinctLabels(slices)
    ensures DistinctLabels(r)
    ensures forall w :: HasSlice(r, w) <==> HasSlice(slices, w) || w == v
    ensures forall w :: CountOf(r, w) == CountOf(slices, w) + (if w == v then 1 else 0)
    ensures Total(r) == Total(slices) + 1
  {
    if slices == [] then [Slice(v, 1)]
    else if slices[0].name == v then [Slice(v, slices[0].count + 1)] + slices[1..]
    else [slices[0]] + Bump(slices[1..], v)
  }

  /** The grouping the plotting library performs for `names`: one slice per
      distinct value present in the rows, of size the number of rows with
      that value, and the sizes add up to the number of rows. */
  function Tally(rows: seq<Launch>, key: GroupKey): (r: seq<Slice>)
    ensures DistinctLabels(r)
    ensures forall v :: HasSlice(r, v) <==> CountLabel(rows, key, v) > 0
    ensures forall v :: CountOf(r, v) == CountLabel(rows, key, v)
    ensures Total(r) == |rows|
  {
    if rows == [] then []
    else Bump(Tally(rows[1..], key), LabelOf(key, rows[0]))
  }

  /** The title names the selection: a fixed text for all sites, otherwise
      a fixed prefix followed by the selected site's name. */
  function PieTitle(site: string): (t: string)
    ensures site == AllSites ==> t == "Total Success Launches by Site"
    ensures site != AllSites ==>
              |t| == 25 + |site| && t[..25] == "Total Launches from site " && t[25..] == site
  {
    if site == AllSites then "Total Success Launches by Site"
    else "Total Launches from site " + site
  }

  /** All sites: the successful launches, grouped by site. One site: all of
      its launches whatever their outcome, grouped by class. */
  function GetPieChart(ds: Dataset, site: string): (chart: PieChart)
    ensures site == AllSites ==>
              chart.names == BySite && forall x :: x in chart.rows <==> x in ds && x.cls == 1
    ensures site != AllSites ==>
              chart.names == ByClass && forall x :: x in chart.rows <==> x in ds && x.site == site
    ensures forall x :: multiset(chart.rows)[x] ==
              if (site == AllSites && x.cls == 1) || (site != AllSites && x.site == site)
              then multiset(ds)[x] else 0
    ensures chart.title == PieTitle(site)
  {
    FilterMembership(ds, HasClass(1));
    FilterMembership(ds, OnSite(site));
    FilterCounts(ds, HasClass(1));
    FilterCounts(ds, OnSite(site));
    var successes := Filter(ds, HasClass(1));
    if site == AllSites then
      PieChart(successes, BySite, PieTitle(site))
    else
      PieChart(Filter(ds, OnSite(site)), ByClass, PieTitle(site))
  }

  /** The slices drawn for a chart. */
  function Slices(chart: PieChart): seq<Slice> {
    Tally(chart.rows, chart.names)
  }

  /** For all sites the pie counts exactly the successful launches, each as
      often as it occurs, in dataset order, and groups them by site. */
  lemma PieAllSitesRows(ds: Dataset, x: Launch)
    ensures GetPieChart(ds, AllSites).names == BySite
    ensures IsSubsequence(GetPieChart(ds, AllSites).rows, ds)
    ensures multiset(GetPieChart(ds, AllSites).rows)[x] == if x.cls == 1 then multiset(ds)[x] else 0
  {
    FilterIsSubsequence(ds, HasClass(1));
    FilterMultiplicity(ds, HasClass(1), x);
  }

  /** For one site the pie counts exactly that site's launches, successes and
      failures alike, in dataset order, and groups them by class. */
  lemma PieSiteRows(ds: Dataset, site: string, x: Launch)
    requires site != AllSites
    ensures GetPieChart(ds, site).names == ByClass
    ensures IsSubsequence(GetPieChart(ds, site).rows, ds)
    ensures multiset(GetPieChart(ds, site).rows)[x] == if x.site == site then multiset(ds)[x] else 0
  {
    FilterIsSubsequence(ds, OnSite(site));
    FilterMultiplicity(ds, OnSite(site), x);
  }

  /** The slice of a site in the all-sites pie has the size of the success
      slice in that site's own pie: both count the site's successes. */
  lemma AllSitesSliceMatchesSitePie(ds: Dataset, site: string)
    requires site != AllSites
    ensures CountOf(Slices(GetPieChart(ds, AllSites)), SiteLabel(site)) ==
            CountOf(Slices(GetPieChart(ds, site)), ClassLabel(1))
  {
    FilterConjunction(ds, HasClass(1), HasLabel(BySite, SiteLabel(site)), SuccessAt(site));
    FilterConjunction(ds, OnSite(site), HasLabel(ByClass, ClassLabel(1)), SuccessAt(site));
  }

  /** The whole of the all-sites pie is the number of successful launches,
      and each of its slices is a site with at least one success. */
  lemma PieAllSitesSlices(ds: Dataset, v: Label)
    ensures Total(Slices(GetPieChart(ds, AllSites))) == |Filter(ds, HasClass(1))|
    ensures HasSlice(Slices(GetPieChart(ds, AllSites)), v) ==>
            v.SiteLabel? && exists x :: x in ds && x.cls == 1 && x.site == v.site
  {
    var rows := GetPieChart(ds, AllSites).rows;
    if HasSlice(Slices(GetPieChart(ds, AllSites)), v) {
      var hit := Filter(rows, HasLabel(BySite, v));
      assert hit[0] in hit;
    }
  }

  /** On a well-formed dataset a site's pie has at most two slices, failures
      (class 0) and successes (class 1), and together they are all of the
      site's launches. */
  lemma PieSiteSlices(ds: Dataset, site: string, v: Label)
    requires WellFormed(ds) && site != AllSites
    ensures HasSlice(Slices(GetPieChart(ds, site)), v) ==> v == ClassLabel(0) || v == ClassLabel(1)
    ensures CountOf(Slices(GetPieChart(ds, site)), ClassLabel(0)) +
            CountOf(Slices(GetPieChart(ds, site)), ClassLabel(1)) == |Filter(ds, OnSite(site))|
  {
    var rows := GetPieChart(ds, site).rows;
    if HasSlice(Slices(GetPieChart(ds, site)), v) {
      var hit := Filter(rows, HasLabel(ByClass, v));
      assert hit[0] in hit;
    }
    forall i | 0 <= i < |rows|
      ensures HasLabel(ByClass, ClassLabel(0))(rows[i]) == !HasLabel(ByClass, ClassLabel(1))(rows[i])
    {
      assert rows[i] in rows;
    }
    FilterSplit(rows, HasLabel(ByClass, ClassLabel(1)), HasLabel(ByClass, ClassLabel(0)));
  }

  /** The all-sites pie ignores the payload slider: every successful launch
      the scatter chart shows for all sites, under any payload range, is
      counted in it, in the same order. */
  lemma PieAllSitesCoversScatter(ds: Dataset, low: real, high: real)
    ensures IsSubsequence(Filter(Scatter.SelectScatter(ds, AllSites, low, high), HasClass(1)),
                          GetPieChart(ds, AllSites).rows)
  {
    var keeps := Scatter.Keeps(AllSites, low, high);
    var both := (l: Launch) => keeps(l) && l.cls == 1;
    FilterConjunction(ds, keeps, HasClass(1), both);
    FilterWeaker(ds, both, HasClass(1));
  }

  /** A site's pie counts, in order, every launch the scatter chart shows
      for that site under any payload range, and more unless the range
      covers every payload of the site. */
  lemma PieSiteCoversScatter(ds: Dataset, site: string, low: real, high: real)
    requires site != AllSites
    ensures IsSubsequence(Scatter.SelectScatter(ds, site, low, high), GetPieChart(ds, site).rows)
  {
    FilterWeaker(ds, Scatter.Keeps(site, low, high), OnSite(site));
  }

  /** Distinct site selections give distinct pie titles. */
  lemma PieTitleDeterminesSite(ds: Dataset, site1: string, site2: string)
    requires site1 != site2
    ensures GetPieChart(ds, site1).title != GetPieChart(ds, site2).title
  {
    var prefix := "Total Launches from site ";
    var t1, t2 := GetPieChart(ds, site1).title, GetPieChart(ds, site2).title;
    if site1 != AllSites && site2 != AllSites {
      assert site1 == t1[|prefix|..];
      assert site2 == t2[|prefix|..];
    } else {
      assert t1[6] != t2[6];
    }
  }

  /** A success launched from `site`. */
  function SuccessAt(site: string): Launch -> bool {
    (l: Launch) => l.cls == 1 && l.site == site
  }

  /** No site is listed twice. */
  predicate DistinctSites(sites: seq<string>) {
    forall i, j :: 0 <= i < j < |sites| ==> sites[i] != sites[j]
  }

  /** The success slices of the listed sites' own pies, added up. */
  function SitePiesSuccesses(ds: Dataset, sites: seq<string>): nat {
    if sites == [] then 0
    else CountOf(Slices(GetPieChart(ds, sites[0])), ClassLabel(1)) + SitePiesSuccesses(ds, sites[1..])
  }

  /** The successes of each listed site, counted in the table and added up. */
  function SuccessCounts(ds: Dataset, sites: seq<string>): nat {
    if sites == [] then 0
    else |Filter(ds, SuccessAt(sites[0]))| + SuccessCounts(ds, sites[1..])
  }

  /** How many listed sites a row counts as a success for. */
  function Hits(l: Launch, sites: seq<string>): nat {
    if sites == [] then 0
    else (if l.cls == 1 && l.site == sites[0] then 1 else 0) + Hits(l, sites[1..])
  }

  lemma {:induction false} SitePiesAreSuccessCounts(ds: Dataset, sites: seq<string>)
    requires AllSites !in sites
    ensures SitePiesSuccesses(ds, sites) == SuccessCounts(ds, sites)
  {
    if sites != [] {
      SitePiesAreSuccessCounts(ds, sites[1..]);
      FilterConjunction(ds, OnSite(sites[0]), HasLabel(ByClass, ClassLabel(1)), SuccessAt(sites[0]));
    }
  }

  lemma {:induction false} HitsOnce(l: Launch, sites: seq<string>)
    requires DistinctSites(sites)
    ensures Hits(l, sites) == if l.cls == 1 && l.site in sites then 1 else 0
  {
    if sites != [] {
      HitsOnce(l, sites[1..]);
    }
  }

  lemma {:induction false} SuccessCountsStep(ds: Dataset, sites: seq<string>)
    requires ds != []
    ensures SuccessCounts(ds, sites) == SuccessCounts(ds[1..], sites) + Hits(ds[0], sites)
  {
    if sites != [] {
      SuccessCountsStep(ds, sites[1..]);
    }
  }

  lemma {:induction false} SuccessCountsEmpty(sites: seq<string>)
    ensures SuccessCounts([], sites) == 0
  {
    if sites != [] {
      SuccessCountsEmpty(sites[1..]);
    }
  }

  /** When every row's site is listed once, the listed sites' success counts
      add up to all successes. */
  lemma {:induction false} SuccessCountsTotal(ds: Dataset, sites: seq<string>)
    requires DistinctSites(sites)
    requires forall i :: 0 <= i < |ds| ==> ds[i].site in sites
    ensures SuccessCounts(ds, sites) == |Filter(ds, HasClass(1))|
  {
    if ds == [] {
      SuccessCountsEmpty(sites);
    } else {
      SuccessCountsTotal(ds[1..], sites);
      SuccessCountsStep(ds, sites);
      assert ds[0].site in sites;
      HitsOnce(ds[0], sites);
      assert |Filter(ds, HasClass(1))| == (if ds[0].cls == 1 then 1 else 0) + |Filter(ds[1..], HasClass(1))|;
    }
  }

  /** When every launch comes from one of a list of distinct sites, the
      success slices of those sites' pies add up to the whole all-sites pie. */
  lemma SitePiesAddUp(ds: Dataset, sites: seq<string>)
    requires DistinctSites(sites) && AllSites !in sites
    requires forall i :: 0 <= i < |ds| ==> ds[i].site in sites
    ensures SitePiesSuccesses(ds, sites) == Total(Slices(GetPieChart(ds, AllSites)))
  {
    SitePiesAreSuccessCounts(ds, sites);
    SuccessCountsTotal(ds, sites);
  }

  /** When every launch comes from one of the sites the dropdown offers, the
      success slices of the four site pies add up to the whole all-sites pie. */
  lemma OfferedSitePiesAddUp(ds: Dataset)
    requires forall i :: 0 <= i < |ds| ==> ds[i].site in SiteOptions[1..]
    ensures SitePiesSuccesses(ds, SiteOptions[1..]) == Total(Slices(GetPieChart(ds, AllSites)))
  {
    OfferedSitesDistinct();
    SitePiesAddUp(ds, SiteOptions[1..]);
  }

  /** The dropdown offers four different sites besides the sentinel. */
  lemma OfferedSitesDistinct()
    ensures DistinctSites(SiteOptions[1..]) && AllSites !in SiteOptions[1..]
  {
    var sites := SiteOptions[1..];
    assert sites == ["CCAFS LC-40", "VAFB SLC-4E", "KSC LC-39A", "CCAFS SLC-40"];
    assert sites[0][1] != sites[1][1] && sites[0][1] != sites[2][1] && sites[1][1] != sites[2][1];
    assert sites[0][6] != sites[3][6] && sites[1][1] != sites[3][1] && sites[2][1] != sites[3][1];
    assert sites[0][0] != AllSites[0] && sites[1][0] != AllSites[0] && sites[2][0] != AllSites[0];
    assert sites[3][0] != AllSites[0];
  }

  /** A cleared dropdown delivers no site; the masks then compare every row's
      site with the text "None". When no row has that site, both charts get
      no rows, and the titles name "None". */
  lemma ClearedDropdownShowsNothing(ds: Dataset, low: real, high: real)
    requires forall i :: 0 <= i < |ds| ==> ds[i].site != "None"
    ensures GetPieChart(ds, "None").rows == []
    ensures GetPieChart(ds, "None").title == "Total Launches from site None"
    ensures Scatter.SelectScatter(ds, "None", low, high) == []
    ensures Scatter.ScatterTitle("None") == "Correlation between PayLoad an success for Site None"
  {
    FilterKeepsNone(ds, OnSite("None"));
    FilterKeepsNone(ds, Scatter.Keeps("None", low, high));
  }
}
