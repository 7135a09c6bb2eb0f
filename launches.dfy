/** The launch records the dashboard reads once at start-up and never changes.
    One `Launch` is one row of the table; the dataset is the table's rows in
    file order. */
module Launches {

  /** One row: the columns 'Launch Site', 'Payload Mass (kg)',
      'Booster Version Category' and 'class' (1 = success, 0 = failure).
      The payload column is read as floating point, so it is a `real` here. */
  datatype Launch = Launch(site: string, payload: real, booster: string, cls: int)

  type Dataset = seq<Launch>

  /** The dropdown value that stands for every launch site. The callbacks
      compare the selected string with it, nothing more. */
  const AllSites: string := "ALL"

  /** The values the site dropdown offers, the sentinel first. */
  const SiteOptions: seq<string> :=
    [AllSites, "CCAFS LC-40", "VAFB SLC-4E", "KSC LC-39A", "CCAFS SLC-40"]

  /** The shape of the data file the dashboard is written for: payloads are
      non-negative and every outcome is 0 or 1. The selections themselves do
      not rely on it. */
  predicate WellFormed(ds: Dataset) {
    forall i :: 0 <= i < |ds| ==> ds[i].payload >= 0.0 && ds[i].cls in {0, 1}
  }

  /** The masks the callbacks build, one per column comparison. */
  function OnSite(site: string): Launch -> bool {
    (l: Launch) => l.site == site
  }

  function HasClass(c: int): Launch -> bool {
    (l: Launch) => l.cls == c
  }

  function PayloadBetween(low: real, high: real): Launch -> bool {
    (l: Launch) => l.payload >= low && l.payload <= high
  }
}
