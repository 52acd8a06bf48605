# BWG stock monitor — a Dafny model of its check-and-diff core

The monitor (`scripts/check_stock.py`) watches a list of hosting plans. For each
configured product it fetches the cart page, decides from the page text whether
the plan can be bought, compares that with the status recorded on the previous
run, and prints a report: one entry per product, the number in stock, the status
changes, and a human-readable summary. It then saves the new statuses for the
next run.

This project models the decision core of that script:

- `Text` (text.dfy): the string operations the script relies on — substring
  search (`pat in text`), `str(pid)` for a product id, the `{pid}` substitution
  of `template.format(pid=pid)`, and `"\n".join(lines)`.
- `Classify` (classify.dfy): the page classification inside `check_stock`.
  "Out of Stock" wins; otherwise "Annually", "Monthly" or "Order Summary" means
  in stock; otherwise out of stock. Only a failed fetch gives `None`.
- `Monitor` (monitor.dfy): the `for p in products` loop of `main`.
  `CheckAll` is the loop. It updates one state map in place, so a product
  listed twice is compared against its own earlier listing. `RunPass`
  specifies the loop as a fold. The lemmas describe what the fold produces
  without referring to the fold: the per-product entries, the in-stock subset,
  the changes measured against the status last known before each product, and
  the final state.
- `Summary` (summary.dfy): the summary text. `BuildLines` appends the lines
  one by one, as the script does, and `SummaryLines` states the layout.
- `CheckStock` (check_stock.dfy): one run of `main`. It covers the default
  URL templates, loading the state file (missing or unreadable means empty),
  the report record and end-to-end properties.

The tri-state stock value is `Option<bool>`: `Some(true)`, `Some(false)`, or
`None` for unknown. The script's `if r["in_stock"]` test is `== Some(true)`.
Product ids are non-negative integers. Their state key is `Decimal(pid)`, the
decimal string `str(pid)`.

The fetches, the clock and the state file are inputs:
- `pages[i]` is the decoded page for product `i`, or `None` when the fetch
  raised.
- `now` is the timestamp string.
- `file` says whether the state file was missing, unreadable, or parsed to a
  map.

`RunCheck` returns the report, the state to save and the list of URLs it
fetched.

The script decodes pages with `errors="ignore"`, which drops undecodable bytes.
Decoding is outside this model; the page text is an input.

## Model

| member | source | states |
|---|---|---|
| Text.Contains | scripts/check_stock.py:58-60 | `pat in text` holds exactly when the pattern occurs at some position of the text |
| Text.Decimal | scripts/check_stock.py:85 | `str(pid)` for a non-negative id: its decimal digits, most significant first, with no sign and no leading zero |
| Text.ContainsEmbedded | scripts/check_stock.py:58-60 | a text built around a marker always contains that marker, whatever surrounds it |
| Text.DecimalDigits | scripts/check_stock.py:85 | `str(pid)` is a non-empty string of decimal digits, one digit long exactly for ids below 10, ending in the last digit of the id |
| Text.DecimalInjective | scripts/check_stock.py:107 | two different ids never share a state key `str(pid)` |
| Text.FormatPid | scripts/check_stock.py:53 | `template.format(pid=pid)`: read left to right, each `{pid}` field becomes the id and every other character is copied |
| Text.FormatPidNoField | scripts/check_stock.py:53 | formatting a template with no `{pid}` field returns the template unchanged |
| Text.FormatPidSplice | scripts/check_stock.py:94 | a `{pid}` field after text containing no brace is replaced by the id, and the text before it is kept |
| Text.JoinLinesAppend | scripts/check_stock.py:136 | joining two non-empty groups of lines puts exactly one newline between the two joined texts |
| Text.JoinLines | scripts/check_stock.py:136 | `"\n".join(lines)`: the lines in order with one newline between neighbours, the empty text for no lines |
| Classify.ClassifyPage | scripts/check_stock.py:58-62 | a fetched page is in stock exactly when "Out of Stock" occurs nowhere in it and at least one of "Annually", "Monthly" or "Order Summary" occurs in it |
| Classify.StockOf | scripts/check_stock.py:51-65 | the status is `None` exactly when the fetch failed; a successful fetch always yields the page's true/false verdict |
| Classify.OutOfStockWins | scripts/check_stock.py:58-59 | a page containing "Out of Stock" is out of stock even when other markers also occur |
| Classify.OrderSummaryMeansInStock | scripts/check_stock.py:60-61 | a page containing "Order Summary" and no "Out of Stock" is in stock |
| Classify.MonthlyMeansInStock | scripts/check_stock.py:60-61 | a page containing "Monthly" and no "Out of Stock" is in stock |
| Monitor.PrevStatus | scripts/check_stock.py:85 | a missing state entry reads as no previous status; a present one gives its recorded status |
| Monitor.Key | scripts/check_stock.py:85 | the state key of a product is `str(pid)` |
| Monitor.EntryFor | scripts/check_stock.py:88-95 | a report entry copies pid, name and price, uses desc or "", and carries the checked status and the buy template filled with the pid |
| Monitor.Step | scripts/check_stock.py:82-110 | one loop iteration: append the entry, append it to the in-stock list when its status is true, append a change carrying the previous status when the status changed, then overwrite the product's state entry with the status and the timestamp |
| Monitor.RunPass | scripts/check_stock.py:81-112 | the whole loop: the iterations in configuration order, starting from empty lists and the loaded state |
| Monitor.StatusChanged | scripts/check_stock.py:86 | a change is flagged only when both statuses are known and one is the negation of the other, and always when both are known and differ |
| Monitor.CheckAll | scripts/check_stock.py:81-112 | the loop, with the map updated in place, produces exactly the results, in-stock list, changes and state of the specified pass, and fetches the specified URLs in order |
| Monitor.RequestsFollowProducts | scripts/check_stock.py:53 | one URL is fetched per configured product, in order; the i-th is the check template with product i's id |
| Monitor.StepFlip | scripts/check_stock.py:85-110 | a product whose checked status is the opposite of its recorded one is appended to the results, and to `changed` with the recorded status, and its new status is recorded |
| Monitor.PrevsAt | scripts/check_stock.py:85 | the status a product is compared against is the one last known before it in the run |
| Monitor.ResultsFollowProducts | scripts/check_stock.py:81-96 | one result per configured product, in order; each copies pid, name and price, uses desc or "", carries the checked status and the buy template with its pid |
| Monitor.InStockOnlyCount | scripts/check_stock.py:141 | the number of entries in the in-stock subset is the number of positions whose status is true |
| Monitor.InStockOnlyMembers | scripts/check_stock.py:98-99 | the in-stock subset holds exactly the entries whose status is true |
| Monitor.InStockListFiltersResults | scripts/check_stock.py:96-99 | `in_stock_list` is the order-preserving subsequence of the results whose status is true |
| Monitor.StateAfterPass | scripts/check_stock.py:107-110 | afterwards the state has a key for every stored or configured product; each configured key holds the status last checked for it and the run's timestamp; every other key is unchanged |
| Monitor.LookupAfterPass | scripts/check_stock.py:107-110 | reading any key of the updated state gives the status last known for it: from its last listing in this run, else as stored |
| Monitor.LastListingWins | scripts/check_stock.py:107-110 | the last listing of a product decides the status recorded for it, even when that status is `None` |
| Monitor.ChangesAgainstMembers | scripts/check_stock.py:101-104 | a change entry is listed exactly for a result whose known status differs from its known previous status, and it carries that previous status |
| Monitor.ChangedAgainstHistory | scripts/check_stock.py:85-86 | the changes are the order-preserving subsequence of results that changed against the status last known before each one: as stored, or from an earlier listing of the same pid in this run |
| Monitor.DistinctPidsCompareWithStored | scripts/check_stock.py:85 | when no earlier product has the same pid, a product is compared against the status stored at the start of the run |
| Monitor.LastKnownUntouched | scripts/check_stock.py:107-110 | a key that no checked product has keeps its stored status |
| Monitor.AllFetchesFailed | scripts/check_stock.py:98-104 | when every fetch fails, no change is reported and nothing is in stock |
| Summary.AppendProductLines | scripts/check_stock.py:118-123 | the loop over results appends exactly the status line of each entry, each followed by its link line when in stock |
| Summary.AppendChangeRows | scripts/check_stock.py:128-131 | the loop over changes appends exactly one change line per change, in order |
| Summary.BuildLines | scripts/check_stock.py:117-134 | the lines built step by step are exactly the specified summary layout |
| Summary.SummaryLines | scripts/check_stock.py:117-134 | the summary layout: header, blank, each entry's status line and its link when in stock, blank, the change block when there are changes, the call to buy when something is in stock |
| Summary.Render | scripts/check_stock.py:117-134 | the text of each kind of line, with the script's separators and glyphs |
| Summary.Icon | scripts/check_stock.py:119 | green circle for in stock, red circle for out of stock, warning sign when unknown |
| Summary.StatusLabel | scripts/check_stock.py:120 | "In Stock ✅", "Out of Stock" or "Unknown" |
| Summary.SummaryText | scripts/check_stock.py:136 | the summary text is the rendered lines joined with newlines |
| Summary.ProductLinesCount | scripts/check_stock.py:118-123 | the product part has one status line per result plus one link line per result in stock |
| Summary.ProductLinesAt | scripts/check_stock.py:118-123 | result i's status line comes after the i earlier status lines and the links of earlier in-stock results, and is followed by its link line exactly when in stock |
| Summary.SummaryLength | scripts/check_stock.py:117-134 | the summary is a header, a blank line, the product lines, a blank line, a change block of 1 + #changes lines only when there are changes, and one closing line only when something is in stock |
| Summary.ChangesShownIff | scripts/check_stock.py:126-127 | the "Status changes" heading appears in the summary exactly when `changed` is non-empty |
| Summary.ChangesListed | scripts/check_stock.py:126-131 | when there are changes, the heading is followed by one line per change, in order |
| Summary.CelebrationShownIff | scripts/check_stock.py:133-134 | the call-to-buy line appears exactly when some product is in stock, and it is then the last line, carrying the in-stock count |
| Summary.RenderOpenings | scripts/check_stock.py:117-134 | the rendered change heading is the only line text opening with the loudspeaker sign, and the call to buy the only one opening with a line break |
| Summary.ChangesHeadingTextIff | scripts/check_stock.py:126-136 | the "Status changes:" text is among the summary's line texts exactly when `changed` is non-empty |
| CheckStock.CheckTemplate | scripts/check_stock.py:74 | the configured check URL template, or the default cart template when none is configured |
| CheckStock.BuyTemplate | scripts/check_stock.py:75 | the configured buy URL template, or the default cart template when none is configured |
| CheckStock.LoadState | scripts/check_stock.py:36-43 | a missing or unparseable state file gives the empty map; a parsed one is used as it is |
| CheckStock.RunCheck | scripts/check_stock.py:68-144 | the report carries the timestamp, the pass's results and changes, `in_stock_count` equal to the number of results whose status is true, and the joined summary; the saved state is the pass's state |
| CheckStock.DefaultCartUrl | scripts/check_stock.py:74-75 | with the default template, a product's URL is the cart URL ending in `pid=` followed by its id |
| CheckStock.ChangeReportedIff | scripts/check_stock.py:85-86 | with distinct pids, a product appears in `changed` exactly when its stored and current statuses are both known and differ, and the change then carries the stored status |
| CheckStock.StateRoundTrip | scripts/check_stock.py:107-110 | the status a run saves for a product, once loaded by the next run, is the status checked at its last listing (`None` after a failed fetch) |
| CheckStock.FailedCheckHidesNextChange | scripts/check_stock.py:63-65 | after a failed fetch, the next run reports no change for that product, whatever status it then finds |
| CheckStock.TwoProductScenario | scripts/check_stock.py:81-104 | two products with different pids, the first stored out of stock and found in stock, the second stored in stock and found out of stock, give exactly two changes, in order, with the right previous and current statuses, and one product in stock |
| CheckStock.TwoProductRun | scripts/check_stock.py:58-104 | end to end with concrete pages: a first product stored out of stock whose page reads "Monthly" and a second stored in stock whose page reads "Out of Stock" give exactly those two changes, in order, and one product in stock |
| CheckStock.ScenarioPages | scripts/check_stock.py:58-62 | a page reading "Monthly" is in stock and a page reading "Out of Stock" is out of stock |

## Left out

- Network fetching (`urllib`, the User-Agent header, the 15-second timeout, byte decoding) is left out. It is I/O: the decoded page, or a failed fetch, is an input.
- The one-second `time.sleep` between products is left out. It has no effect on any value.
- Diagnostics written to stderr on a failed fetch are left out. They are output only.
- Reading the configuration and the state file, writing the state file, and printing the JSON report are left out. This is file and JSON plumbing: the configuration is a `Config` value, the state file is a `StoredState`, the saved state and the report are returned values.
- `load_config` errors are not modelled: a missing file or a missing `products` key aborts the script before any check. A stored state that parses to something other than a map of entries, or an entry whose `in_stock` is not a boolean or null, is not modelled either.
- The clock and its UTC+8 formatting are left out. `now` is a parameter.
- Prices are kept as the string Python prints, because number formatting is not modelled. Glyphs are fixed code points.
- FormatPid: only `{pid}` fields are substituted. The `{{`/`}}` escapes of `str.format` are not modelled, and neither are other fields, which make the script raise. The templates are assumed to use `{pid}` alone.
- Configuration fields are taken to be strings when present. A field given as JSON `null` is not modelled: `"desc": null` would print "(None)", and a null `check_url` or `buy_url` makes the script raise.
- Product ids are non-negative integers. String ids, for which `str(pid)` is the id itself, are not modelled.
- Process exit codes are left out.
