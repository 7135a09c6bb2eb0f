/** The slider's default range, derived once at start-up: the smallest and
    the largest payload of the dataset, each truncated to an integer. */
module PayloadBounds {
  import opened Seqs
  import opened Launches
  import Scatter

  datatype Option<T> = None | Some(value: T)

  /** The slider value `[low, high]`. */
  datatype SliderRange = SliderRange(low: int, high: int)

  /** The largest payload of a non-empty dataset. */
  function MaxPayload(ds: Dataset): (m: real)
    requires ds != []
    ensures exists i :: 0 <= i < |ds| && ds[i].payload == m
    ensures forall i :: 0 <= i < |ds| ==> ds[i].payload <= m
  {
    if |ds| == 1 then ds[0].payload
    else
      var rest := MaxPayload(ds[1..]);
      if ds[0].payload > rest then ds[0].payload else rest
  }

  /** The smallest payload of a non-empty dataset. */
  function MinPayload(ds: Dataset): (m: real)
    requires ds != []
    ensures exists i :: 0 <= i < |ds| && ds[i].payload == m
    ensures forall i :: 0 <= i < |ds| ==> m <= ds[i].payload
  {
    if |ds| == 1 then ds[0].payload
    else
      var rest := MinPayload(ds[1..]);
      if ds[0].payload < rest then ds[0].payload else rest
  }

  /** Conversion of a float to an integer: the fraction is dropped, so the
      result lies between zero and `x`, less than one away from `x`. */
  function Trunc(x: real): (t: int)
    ensures 0.0 <= x ==> 0 <= t && t as real <= x < t as real + 1.0
    ensures x < 0.0 ==> t <= 0 && t as real - 1.0 < x <= t as real
  {
    if x >= 0.0 then x.Floor else -((-x).Floor)
  }

  /** A payload with no fractional part. */
  predicate IsWhole(x: real) {
    x == x.Floor as real
  }

  /** Truncation keeps the order of its arguments. */
  lemma TruncMonotone(x: real, y: real)
    requires x <= y
    ensures Trunc(x) <= Trunc(y)
  {
    if x < 0.0 && 0.0 <= y {
      assert Trunc(x) <= 0 <= Trunc(y);
    }
  }

  /** Truncation leaves a whole number unchanged. */
  lemma TruncWhole(x: real)
    requires IsWhole(x)
    ensures Trunc(x) as real == x
  {
    if x < 0.0 {
      assert (-x).Floor == -(x.Floor);
    }
  }

  /** The default slider value. The maximum of an empty column is not a
      number and converting it fails, so an empty dataset has none. */
  function DefaultRange(ds: Dataset): (r: Option<SliderRange>)
    ensures r.Some? <==> ds != []
    ensures r.Some? ==> r.value.low <= r.value.high
  {
    if ds == [] then None
    else
      TruncMonotone(MinPayload(ds), MaxPayload(ds));
      Some(SliderRange(Trunc(MinPayload(ds)), Trunc(MaxPayload(ds))))
  }

  /** Every payload, truncated, lies in the default range. */
  lemma DefaultRangeBracketsPayloads(ds: Dataset, i: int)
    requires 0 <= i < |ds|
    ensures DefaultRange(ds).Some?
    ensures DefaultRange(ds).value.low <= Trunc(ds[i].payload) <= DefaultRange(ds).value.high
  {
    TruncMonotone(MinPayload(ds), ds[i].payload);
    TruncMonotone(ds[i].payload, MaxPayload(ds));
  }

  /** Both ends of the default range are reached: the low end is the
      truncated payload of some row, and so is the high end. With
      `DefaultRangeBracketsPayloads` they are the least and the greatest
      truncated payloads. */
  lemma DefaultRangeAttained(ds: Dataset)
    requires ds != []
    ensures exists i :: 0 <= i < |ds| && Trunc(ds[i].payload) == DefaultRange(ds).value.low
    ensures exists j :: 0 <= j < |ds| && Trunc(ds[j].payload) == DefaultRange(ds).value.high
  {
    var i :| 0 <= i < |ds| && ds[i].payload == MinPayload(ds);
    var j :| 0 <= j < |ds| && ds[j].payload == MaxPayload(ds);
    assert Trunc(ds[i].payload) == DefaultRange(ds).value.low;
    assert Trunc(ds[j].payload) == DefaultRange(ds).value.high;
  }

  /** With whole-number payloads, the default range with all sites selected
      shows the whole dataset, in order. */
  lemma DefaultRangeSelectsAll(ds: Dataset)
    requires ds != []
    requires forall i :: 0 <= i < |ds| ==> IsWhole(ds[i].payload)
    ensures Scatter.SelectScatter(ds, AllSites, DefaultRange(ds).value.low as real,
                                  DefaultRange(ds).value.high as real) == ds
  {
    var r := DefaultRange(ds).value;
    forall i | 0 <= i < |ds|
      ensures Scatter.Keeps(AllSites, r.low as real, r.high as real)(ds[i])
    {
      DefaultRangeBracketsPayloads(ds, i);
      TruncWhole(ds[i].payload);
    }
    FilterKeepsAll(ds, Scatter.Keeps(AllSites, r.low as real, r.high as real));
  }

  /** With non-negative payloads that may have fractions, the default range
      with all sites selected loses only the records above the truncated
      maximum: the lower bound never excludes anything. */
  lemma DefaultRangeNonNegative(ds: Dataset)
    requires ds != [] && WellFormed(ds)
    ensures Scatter.SelectScatter(ds, AllSites, DefaultRange(ds).value.low as real,
                                  DefaultRange(ds).value.high as real) ==
            Filter(ds, (l: Launch) => l.payload <= DefaultRange(ds).value.high as real)
  {
    var r := DefaultRange(ds).value;
    var upTo := (l: Launch) => l.payload <= r.high as real;
    forall i | 0 <= i < |ds|
      ensures Scatter.Keeps(AllSites, r.low as real, r.high as real)(ds[i]) == upTo(ds[i])
    {
      assert r.low as real <= MinPayload(ds) <= ds[i].payload;
    }
    FilterAgree(ds, Scatter.Keeps(AllSites, r.low as real, r.high as real), upTo);
  }

  /** With non-negative payloads, when the largest payload has a fractional
      part the default range stops below it, so a launch of that payload is
      missing from the scatter chart the page opens with. */
  lemma DefaultRangeDropsMaximum(ds: Dataset)
    requires ds != [] && WellFormed(ds) && !IsWhole(MaxPayload(ds))
    ensures exists i :: 0 <= i < |ds| && ds[i].payload == MaxPayload(ds) &&
              ds[i] !in Scatter.SelectScatter(ds, AllSites, DefaultRange(ds).value.low as real,
                                              DefaultRange(ds).value.high as real)
  {
    var i :| 0 <= i < |ds| && ds[i].payload == MaxPayload(ds);
    assert ds[i].payload >= 0.0;
    assert DefaultRange(ds).value.high as real < MaxPayload(ds);
  }

  /** An instance of `DefaultRangeDropsMaximum`: a single launch of 9600.5 kg: the default range is [9600, 9600] and
      the scatter chart it opens with is empty. */
  lemma DefaultRangeDropsFractionalMaximum()
    ensures var ds := [Launch("KSC LC-39A", 9600.5, "FT", 1)];
            DefaultRange(ds) == Some(SliderRange(9600, 9600)) &&
            Scatter.SelectScatter(ds, AllSites, 9600.0, 9600.0) == []
  {
    var ds := [Launch("KSC LC-39A", 9600.5, "FT", 1)];
    assert Trunc(9600.5) == 9600;
    FilterKeepsNone(ds, Scatter.Keeps(AllSites, 9600.0, 9600.0));
  }
}
