# SpaceX launch records dashboard — selection logic

This project models the data logic of the SpaceX launch records dashboard
(`IBM-Data_Science_Capstone_Project/07_SpaceS_dash_app.py`): a Dash app that
reads a table of launches once and redraws two charts whenever the site
dropdown or the payload range slider changes. What is modelled is which rows
each chart is given, how they are grouped, the titles, and the slider's
default range:

- `Launches`: one row of the table (`Launch`: launch site, payload mass,
  booster version category, class), the dataset as a sequence of rows, the
  sentinel `"ALL"`, the dropdown's fixed options and the column masks
  (`OnSite`, `HasClass`, `PayloadBetween`).
- `Seqs`: `Filter`, the order-preserving row selection that a pandas boolean
  mask performs, and its laws (membership, multiplicity, subsequence, two
  masks in a row equal their conjunction, weaker masks keep more).
- `Scatter`: the scatter callback. `SelectScatter` keeps rows whose payload
  lies in the inclusive range `[low, high]`, then, unless the site is
  `"ALL"`, rows of the selected site. `UpdateScatterChart` is the whole
  callback: it unpacks the slider pair and adds the title.
- `Pie`: the pie callback. For `"ALL"` the rows are the successful launches
  (`class == 1`) grouped by launch site; for a site, all of that site's
  launches grouped by class. `Tally` is the grouping the plotting library
  performs for `names=`: one slice per distinct value, sized by its row
  count.
- `PayloadBounds`: `min_payload`/`max_payload`, the minimum and maximum
  payload each converted with `int()`, which truncates toward zero. An empty
  table has no default range (the maximum of an empty column is NaN and
  `int()` of it raises).

The payload column is read as floating point, so payloads and slider bounds
are `real` here and the truncation is written out (`Trunc`). A consequence
the model makes explicit: when payloads are non-negative and the largest
has a fractional part, the default range `[int(min), int(max)]` excludes
that launch (`DefaultRangeDropsMaximum`; `DefaultRangeDropsFractionalMaximum`
is a one-launch instance); with whole-number payloads the default range
shows every launch (`DefaultRangeSelectsAll`).

The site selection is the plain dropdown string compared with `"ALL"`, as
the code does; the payload range may be inverted (`low > high`), which the
code does not reject and which selects nothing.

The slider's bounds are the fixed 0 and 10000 of its declaration (lines
68-69); only its default value and its marks come from the data. The scatter title reads
"PayLoad an success" as written.

## Model

| member | source | states |
|---|---|---|
| Seqs.Filter | IBM-Data_Science_Capstone_Project/07_SpaceS_dash_app.py:148 | a boolean-mask selection keeps only rows of the table that satisfy the mask and is never longer than it |
| Seqs.FilterMultiplicity | IBM-Data_Science_Capstone_Project/07_SpaceS_dash_app.py:148 | a masked selection holds each row exactly as often as the table when the mask holds, and not at all otherwise |
| Seqs.FilterConjunction | IBM-Data_Science_Capstone_Project/07_SpaceS_dash_app.py:148-164 | masking twice equals masking once by the conjunction, so the order of the payload and site masks is not observable |
| Scatter.SelectScatter | IBM-Data_Science_Capstone_Project/07_SpaceS_dash_app.py:145-164 | a row is shown iff it is in the table, `low <= payload <= high` (both bounds inclusive) and the site is `"ALL"` or equals the row's site; the two-step selection equals the single combined mask |
| Scatter.UpdateScatterChart | IBM-Data_Science_Capstone_Project/07_SpaceS_dash_app.py:133-176 | the callback's rows are the selection for the unpacked slider pair: each table row with payload within it (inclusive) and, unless `"ALL"`, of the selected site occurs exactly as often as in the table, no other row occurs, and table order is kept; its title is the site's scatter title |
| Scatter.ScatterTitle | IBM-Data_Science_Capstone_Project/07_SpaceS_dash_app.py:151-171 | the title is "Correlation between PayLoad an success for All Sites" for `"ALL"`, otherwise the fixed text "… for Site " followed by exactly the selected site's name |
| Scatter.ScatterMultiplicity | IBM-Data_Science_Capstone_Project/07_SpaceS_dash_app.py:148-164 | no row is invented or duplicated and none that qualifies is lost: each occurs as often as in the table if it qualifies, else never |
| Scatter.ScatterIsSubsequence | IBM-Data_Science_Capstone_Project/07_SpaceS_dash_app.py:148-164 | the scatter rows are an order-preserving subsequence of the table, and a sub-multiset of it |
| Scatter.ScatterMonotone | IBM-Data_Science_Capstone_Project/07_SpaceS_dash_app.py:145-148 | widening `[low, high]` never removes a row; the narrower selection is a subsequence of the wider one |
| Scatter.ScatterEmptyRange | IBM-Data_Science_Capstone_Project/07_SpaceS_dash_app.py:145-148 | an inverted range `low > high` selects no row, for any site |
| Scatter.ScatterSinglePoint | IBM-Data_Science_Capstone_Project/07_SpaceS_dash_app.py:148-161 | the range `[v, v]` with all sites selects exactly the rows of payload `v`, from every site |
| Scatter.ScatterFullSlider | IBM-Data_Science_Capstone_Project/07_SpaceS_dash_app.py:145-164 | when all payloads lie within the slider's bounds 0 and 10000, the full range shows the whole table for `"ALL"` and exactly the selected site's rows otherwise |
| Scatter.ScatterTitleDeterminesSite | IBM-Data_Science_Capstone_Project/07_SpaceS_dash_app.py:151-171 | distinct site selections get distinct scatter titles ("for All Sites" versus "for Site {site}") |
| Pie.Tally | IBM-Data_Science_Capstone_Project/07_SpaceS_dash_app.py:107-121 | grouping by the `names` column gives one slice per distinct value present, with distinct labels, each sized by the number of rows with that value, and the sizes sum to the number of rows |
| Pie.GetPieChart | IBM-Data_Science_Capstone_Project/07_SpaceS_dash_app.py:93-123 | for `"ALL"` the rows are exactly the table's `class == 1` rows, grouped by launch site; for a site, exactly that site's rows whatever their class, grouped by class; each such row occurs exactly as often as in the table; the title is the selection's pie title |
| Pie.PieTitle | IBM-Data_Science_Capstone_Project/07_SpaceS_dash_app.py:108-120 | the pie title is "Total Success Launches by Site" for `"ALL"`, otherwise the fixed text "Total Launches from site " followed by exactly the selected site's name |
| Pie.PieAllSitesRows | IBM-Data_Science_Capstone_Project/07_SpaceS_dash_app.py:105-111 | the all-sites pie rows keep table order and hold every success exactly as often as the table, and no failure |
| Pie.PieSiteRows | IBM-Data_Science_Capstone_Project/07_SpaceS_dash_app.py:113-121 | a site's pie rows keep table order and hold every row of the site exactly as often as the table, successes and failures alike |
| Pie.PieAllSitesSlices | IBM-Data_Science_Capstone_Project/07_SpaceS_dash_app.py:105-111 | the all-sites slices add up to the number of successful launches, and every slice is a site with at least one success |
| Pie.PieSiteSlices | IBM-Data_Science_Capstone_Project/07_SpaceS_dash_app.py:114-121 | on a well-formed table a site's pie has only the slices class 0 and class 1, and their sizes add up to the site's number of launches |
| Pie.AllSitesSliceMatchesSitePie | IBM-Data_Science_Capstone_Project/07_SpaceS_dash_app.py:105-121 | a site's slice in the all-sites pie equals the success slice of that site's own pie |
| Pie.PieAllSitesCoversScatter | IBM-Data_Science_Capstone_Project/07_SpaceS_dash_app.py:89-111 | the all-sites pie does not depend on the payload slider: the successes shown by the all-sites scatter under any range are all counted in it, in order |
| Pie.PieSiteCoversScatter | IBM-Data_Science_Capstone_Project/07_SpaceS_dash_app.py:113-121 | a site's pie counts, in order, every row the scatter shows for that site under any payload range |
| Pie.SitePiesAddUp | IBM-Data_Science_Capstone_Project/07_SpaceS_dash_app.py:105-121 | when every launch comes from one of a list of distinct sites, the success slices of those sites' pies add up to the whole all-sites pie |
| Pie.OfferedSitesDistinct | IBM-Data_Science_Capstone_Project/07_SpaceS_dash_app.py:42-48 | the dropdown offers four distinct sites besides `"ALL"` |
| Pie.OfferedSitePiesAddUp | IBM-Data_Science_Capstone_Project/07_SpaceS_dash_app.py:42-121 | when every launch comes from an offered site, the success slices of the four offered sites' pies add up to the all-sites pie |
| Pie.ClearedDropdownShowsNothing | IBM-Data_Science_Capstone_Project/07_SpaceS_dash_app.py:114-171 | a cleared dropdown (compared as "None") gives both charts no rows when no launch has that site, with titles naming "None" |
| Pie.PieTitleDeterminesSite | IBM-Data_Science_Capstone_Project/07_SpaceS_dash_app.py:106-120 | distinct site selections get distinct pie titles ("Total Success Launches by Site" versus "Total Launches from site {site}") |
| PayloadBounds.MaxPayload | IBM-Data_Science_Capstone_Project/07_SpaceS_dash_app.py:21 | the maximum is some row's payload and no payload exceeds it |
| PayloadBounds.MinPayload | IBM-Data_Science_Capstone_Project/07_SpaceS_dash_app.py:22 | the minimum is some row's payload and no payload is below it |
| PayloadBounds.Trunc | IBM-Data_Science_Capstone_Project/07_SpaceS_dash_app.py:21-22 | `int()` of a float drops the fraction: the result lies between 0 and the value, less than 1 away from it |
| PayloadBounds.TruncMonotone | IBM-Data_Science_Capstone_Project/07_SpaceS_dash_app.py:21-22 | truncation preserves order |
| PayloadBounds.TruncWhole | IBM-Data_Science_Capstone_Project/07_SpaceS_dash_app.py:21-22 | truncation leaves a whole number unchanged |
| PayloadBounds.DefaultRange | IBM-Data_Science_Capstone_Project/07_SpaceS_dash_app.py:21-22 | a default range exists iff the table is non-empty, and then `min_payload <= max_payload` |
| PayloadBounds.DefaultRangeBracketsPayloads | IBM-Data_Science_Capstone_Project/07_SpaceS_dash_app.py:21-22 | every truncated payload lies within `[min_payload, max_payload]` |
| PayloadBounds.DefaultRangeAttained | IBM-Data_Science_Capstone_Project/07_SpaceS_dash_app.py:21-22 | both ends of the default range are the truncated payload of some row, so with the brackets lemma they are the least and greatest truncated payloads |
| PayloadBounds.DefaultRangeSelectsAll | IBM-Data_Science_Capstone_Project/07_SpaceS_dash_app.py:71 | with whole-number payloads, the slider's default value with `"ALL"` shows the whole table |
| PayloadBounds.DefaultRangeNonNegative | IBM-Data_Science_Capstone_Project/07_SpaceS_dash_app.py:71 | with non-negative payloads, the default value with `"ALL"` loses only the rows above the truncated maximum |
| PayloadBounds.DefaultRangeDropsMaximum | IBM-Data_Science_Capstone_Project/07_SpaceS_dash_app.py:21-22 | with non-negative payloads whose maximum has a fractional part, a launch of the maximum payload is missing from the scatter shown with the default value and `"ALL"` |
| PayloadBounds.DefaultRangeDropsFractionalMaximum | IBM-Data_Science_Capstone_Project/07_SpaceS_dash_app.py:21-22 | for a single launch of 9600.5 kg the default range is `[9600, 9600]` and the initial scatter is empty |

## Left out

- Reading the CSV file (line 20): file I/O; the table is a given sequence of rows.
- The page layout (lines 28-85): styles, headings, the dropdown's labels, the slider's `step` and `marks`. The dropdown's values are `SiteOptions` (used by `OfferedSitePiesAddUp`), the slider's default value is `DefaultRange`, and its fixed bounds 0 and 10000 appear only as the range of `ScatterFullSlider`; the slider's restriction of user input to that range and step is not modelled.
- A cleared dropdown: the dropdown can be cleared, and the callbacks then receive `None` instead of a string. The model has no separate value for it; it stands for the site string "None", which gives the same empty selections and the same "… None" titles as long as no launch has that site name (`ClearedDropdownShowsNothing`).
- Callback registration and dispatch and the web server (lines 89-92, 126-132, 180): framework plumbing.
- Figure construction by the plotting library (lines 107-121, 153-174): colours, axis labels, hover data, the drawing of points, and the order in which slices are drawn (the library sorts them by size); only the rows handed over, the grouping column, the slice sizes it derives and the titles are modelled.
- Floating-point semantics: payloads are exact reals; NaN, infinities and rounding are not modelled, nor the fact that the slider may deliver integers where the table holds floats.
- Missing values: pandas skips NaN payloads in `min()`/`max()` and a NaN never passes a comparison mask; the model's rows always have a payload.
