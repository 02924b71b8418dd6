# Walmart search scraper and JSON-to-CSV combiner, modelled in Dafny

The model covers the data logic of two scripts of the Walmart scraper.

`walmart-scraper/walmart.py`:
- `parse_product` reads a product page's embedded `__NEXT_DATA__` payload. It keeps only the whitelisted product fields and passes the reviews through.
- `parse_search` reads a search page's payload. It takes the first item stack, reduces every listing to the whitelisted search fields, and reports the stack's result count.
- `scrape_search` works out how many pages to fetch:
  - it takes the ceiling of the count over 40 pages;
  - it caps that at Walmart's limit of 25;
  - it caps it again at `max_pages` when that is truthy.
  It then returns page 1 alone, or asks for pages 2 to N and extends page 1's listings with each follow-up page's listings as they arrive.

`walmart-scraper/combine.py` turns saved search results into CSV rows:
- `get_nested_value` walks a dotted attribute path through nested dicts and answers `""` at the first miss.
- `is_valid_record` keeps only records of type `REGULAR` whose selected paths are all present.
- `json_to_csv` builds one row per valid record of every list-shaped file, tags each row with the file stem as its `category`, and hands the rows to the CSV writer only when there is at least one.

Files:
- `wrappers.dfy`: the `Option` and `Result` types.
- `json.dfy` (module `JsonValues`): decoded JSON.
  - Objects are ordered key/value sequences, so dict insertion order is visible.
  - `Get` is `d.get(k)`, `Put` is `d[k] = v`, and `Follow` is `d[k1][k2]...`.
  - `FilterKeys` is the whitelist dict comprehension.
- `seqs.dfy` (module `Sequences`): `FlatMap`, the shape of a loop that extends an accumulator once per element, and its laws.
- `walmart.dfy` (module `Walmart`): `walmart.py`.
- `combine.dfy` (module `Combine`): `combine.py`.

Modelling choices:
- A Python exception raised while reading a payload is a `Failure`. This covers a missing key, `.get` on a non-dict, iterating a non-list and dividing a non-number. The whole scrape or conversion then yields nothing.
- Fetched pages are inputs. `ScrapeSearch` takes page 1's payload and the follow-up payloads in arrival order.
- Read files are inputs. `JsonToCsv` takes each file's stem and its decoded content, which is `None` when decoding failed.

Behaviour of the code that the model keeps:
- The follow-up ordinals are `2..total_pages` (`range(2, total_pages + 1)`).
- A negative `max_pages` is truthy, so it passes through `min` and the page count goes negative. That count is at most 1, so only page 1 is returned.
- `max_pages = 0` is falsy and switches the third clamp off.
- A `True` count is 1/40 of a page and gives one page. Any other truthy count that is not a number makes the division raise.

## Model

| member | source | states |
|---|---|---|
| Walmart.ParseProduct | walmart-scraper/walmart.py:27-47 | fails exactly when the product path is missing, the product is not a dict, or the reviews path is missing; otherwise the reviews are passed through and the product holds exactly the raw pairs whose key is whitelisted |
| Walmart.ParseProductWhitelist | walmart-scraper/walmart.py:45 | the product answers the raw value for every whitelisted key and nothing for any other key, and its pairs are a subsequence of the raw pairs (order kept) |
| Walmart.Refine | walmart-scraper/walmart.py:82 | a refined listing is a dict holding exactly the raw pairs whose key is in the search whitelist |
| Walmart.RefineEach | walmart-scraper/walmart.py:80-83 | one refined listing per raw item, same length, listing i refines item i |
| Walmart.RefineItems | walmart-scraper/walmart.py:80-83 | the loop succeeds exactly when every raw item is a dict, and then answers one refined listing per raw item, in order (RefineEach) |
| Walmart.SearchPageMeaning | walmart-scraper/walmart.py:56-85 | about SearchPageOf: no item stacks gives no results and count 0; failure exactly when the payload cannot be read or a raw item is not a dict; otherwise the first stack's count and one refined listing per raw item, in order |
| Walmart.SearchResultWhitelist | walmart-scraper/walmart.py:82 | every returned listing answers its raw item's value for whitelisted keys only, and keeps the raw field order |
| Walmart.ItemStacks | walmart-scraper/walmart.py:57 | a missing `props.pageProps.initialData` path fails with MissingData; success needs `initialData` to be a dict; a dict without `searchResult` gives the empty stack list; a present `searchResult` must be a dict and then gives its `itemStacks`, or the empty list when it has none |
| Walmart.StackOf | walmart-scraper/walmart.py:61-62 | succeeds exactly when the stacks are a list whose first entry is a dict whose `items` (default []) can be iterated; the items are then exactly what iterating them yields, and the count is that dict's `count` or 0 |
| Walmart.FirstStackOf | walmart-scraper/walmart.py:57-62 | no stack exactly when the stack list is read and falsy; success exactly when the stack list is read and, if truthy, its first stack is read; the stack returned is that first stack (StackOf of the item stacks) |
| Walmart.RawItems | walmart-scraper/walmart.py:81 | iterating a list yields its items; an empty dict or empty string yields nothing; iterating anything else fails |
| Walmart.ParseSearch | walmart-scraper/walmart.py:56-85 | the stack lookup followed by the refine loop (RefineItems) answers exactly what parse_search answers (SearchPageOf, whose meaning SearchPageMeaning states) |
| Walmart.CeilDiv | walmart-scraper/walmart.py:130 | the result q is the ceiling of n/d: (q-1)·d < n ≤ q·d |
| Walmart.RawPages | walmart-scraper/walmart.py:130 | a falsy count gives 0 pages; a number gives its ceiling over 40; `True` gives 1 page; failure exactly for a truthy count that is neither a number nor a boolean |
| Walmart.PageCount | walmart-scraper/walmart.py:130-133 | never above 25 or the raw page count; never above a truthy max_pages; equals one of these bounds, hence their minimum; without a truthy max_pages it is min(raw, 25) |
| Walmart.NoResultsNoPages | walmart-scraper/walmart.py:130-133 | a falsy count gives 0 pages unless max_pages is negative |
| Walmart.FollowUpOrdinals | walmart-scraper/walmart.py:140-143 | total_pages − 1 ordinals (none below 2 pages), the i-th being i + 2 |
| Walmart.FollowUpOrdinalsExactly | walmart-scraper/walmart.py:140-143 | the ordinals are exactly 2..total_pages, strictly increasing, and never 1 |
| Walmart.ScrapeSearch | walmart-scraper/walmart.py:120-147 | a page 1 that cannot be parsed or counted fails with no follow-up requests; at most 1 page gives exactly page 1's listings and no request; otherwise it requests ordinals 2..N and succeeds exactly when every follow-up payload parses, with page 1's listings followed by each follow-up page's listings |
| Walmart.ExtendWithPages | walmart-scraper/walmart.py:144-145 | succeeds exactly when every payload parses, with the listings extended by each page's listings in arrival order |
| Walmart.HarvestLength | walmart-scraper/walmart.py:144-145 | the harvest's length is page 1's length plus the sum of the follow-up pages' lengths |
| Walmart.HarvestOrder | walmart-scraper/walmart.py:144-145 | page 1's listings keep their positions; every listing of follow-up page p sits, in order, right after page 1 and the pages that arrived before p |
| Walmart.PaginationScenarios | walmart-scraper/walmart.py:130-143 | 85 results give 3 pages and ordinals [2, 3]; 2000 results give 25 pages and 24 follow-ups; 2000 results with max_pages 2 give ordinals [2] |
| JsonValues.Get | walmart-scraper/combine.py:29-30 | `d.get(k)` answers something exactly when k is a key of d, and the answer is paired with k in d |
| JsonValues.Follow | walmart-scraper/combine.py:28-32 | the empty path answers the value itself; a non-empty path from a non-dict answers nothing; a one-key path answers `j[k]` exactly when j is a dict holding k, which with FollowAppend fixes every longer path |
| JsonValues.FollowAppend | walmart-scraper/combine.py:28-32 | following a + b is following a, then b from where a ends, failing if either leg fails |
| JsonValues.FilterKeys | walmart-scraper/walmart.py:45 | the filtered object holds exactly the pairs whose key is wanted, and is no longer than the original |
| JsonValues.FilterKeysGet | walmart-scraper/walmart.py:45 | the filtered object answers the original value for wanted keys and nothing for others |
| JsonValues.FilterKeysOrder | walmart-scraper/walmart.py:45 | the filtered pairs are a subsequence of the original pairs |
| JsonValues.FilterKeysDistinct | walmart-scraper/walmart.py:45 | filtering an object with distinct keys leaves distinct keys |
| JsonValues.Put | walmart-scraper/combine.py:62 | after `d[k] = v`, k answers v, and the key order is unchanged when k was present or gains k at the end otherwise |
| JsonValues.PutOther | walmart-scraper/combine.py:62 | `d[k] = v` leaves the value of every other key unchanged |
| Combine.Split | walmart-scraper/combine.py:61 | `str.split(".")` always yields at least one piece |
| Combine.SplitThenJoin | walmart-scraper/combine.py:61 | the pieces contain no dot and rejoin with "." to the attribute name |
| Combine.JoinThenSplit | walmart-scraper/combine.py:61 | joining dot-free pieces and splitting again gives the pieces back |
| Combine.ThumbnailPath | walmart-scraper/combine.py:17 | `imageInfo.thumbnailUrl` splits into `imageInfo` and `thumbnailUrl` |
| Combine.GetNestedValue | walmart-scraper/combine.py:26-33 | the loop answers the value reached by following every key, or "" at the first non-dict or missing key (NestedValue) |
| Combine.NestedValueEmptyPath | walmart-scraper/combine.py:28-33 | the empty path answers the data unchanged |
| Combine.NestedValueStopsAtMiss | walmart-scraper/combine.py:29-32 | a step that meets a non-dict or a missing key makes the lookup answer "" |
| Combine.NestedValueAppend | walmart-scraper/combine.py:28-33 | looking up a + b equals looking up b in the answer for a |
| Combine.AllPresent | walmart-scraper/combine.py:40 | true exactly when every required dotted path looks up to something other than "" |
| Combine.IsValidRecord | walmart-scraper/combine.py:36-40 | false whenever the top-level type is absent or different; with no required paths, true exactly when the type matches |
| Combine.ValidRecordMeaning | walmart-scraper/combine.py:38-40 | valid exactly when the type matches and every required path is present ("" counts as missing) |
| Combine.FirstOccurrences | walmart-scraper/combine.py:61 | the dict's key order holds exactly the selected names (their order is FirstOccurrencesOrder) |
| Combine.FirstOccurrencesDistinct | walmart-scraper/combine.py:61 | no key occurs twice, and distinct selected names keep their given order |
| Combine.FirstOccurrencesOrder | walmart-scraper/combine.py:61 | the keys come in order of first occurrence: of two keys, the earlier occurs among the selected names before any occurrence of the later |
| Combine.Columns | walmart-scraper/combine.py:61 | the columns come in the given order, each holding the nested lookup of its split path |
| Combine.Project | walmart-scraper/combine.py:61 | the comprehension's keys are the selected names without repeats, in order of first occurrence (FirstOccurrences, FirstOccurrencesOrder) |
| Combine.ProjectValues | walmart-scraper/combine.py:61 | every selected attribute holds the nested lookup of its split path |
| Combine.RowShape | walmart-scraper/combine.py:61-62 | a row's keys are exactly the selected attributes plus "category", without repeats; every other attribute holds its nested lookup and "category" holds the stem; when the attributes are distinct and do not include "category", the keys are exactly the header `selected + ["category"]` in order |
| Combine.BuildRow | walmart-scraper/combine.py:61-62 | the row's keys are the selected names in order of first occurrence (FirstOccurrences, FirstOccurrencesOrder), followed by "category" unless it was already selected |
| Combine.RowFor | walmart-scraper/combine.py:60-63 | at most one row per item, and one exactly when the item is a dict and a valid record |
| Combine.FileWithoutListAddsNothing | walmart-scraper/combine.py:52-58 | an unreadable or non-list file contributes no row, wherever it stands |
| Combine.ItemRowsFromRecords | walmart-scraper/combine.py:59-63 | every row of a list is the row built from one of its valid records |
| Combine.RowsFitHeader | walmart-scraper/combine.py:61-67 | every row has exactly the header's keys, and its category is the stem of one of the files |
| Combine.ListRows | walmart-scraper/combine.py:59-63 | aborts exactly when an item is not a dict; otherwise one row per valid item, in item order |
| Combine.JsonToCsv | walmart-scraper/combine.py:43-75 | aborts exactly when some list file holds a non-dict item; otherwise the rows of all files in file then item order, with header `selected + ["category"]`, and no table when there are no rows |

## Left out

- The scraping client calls (`async_scrape`, `concurrent_scrape`) and the concurrency of the follow-up fetches are not modelled. The payloads they return are inputs, and follow-ups are given in arrival order.
- Walmart.ScrapeSearch does not tie the number of follow-up payloads to the requested ordinals, because the fetching service decides what comes back.
- `scrape_products` is not modelled. It only gathers `parse_product` over concurrently fetched pages.
- The XPath selection of `__NEXT_DATA__` and `json.loads` are not modelled: payloads arrive decoded.
- `make_search_url` is not modelled: it only URL-encodes the query. As written, its dict uses the sort value as a query key (`sort: sort`) instead of a fixed key.
- Walmart.RawPages uses exact integer ceiling division instead of float division followed by `math.ceil`. JSON numbers are integers here, so float rounding and fractional counts are not modelled.
- Logging (`log.*`) and `print` are not modelled.
- File I/O in `json_to_csv` (`glob`, `open`, `json.load`, `csv.DictWriter`) is not modelled:
  - Each file is its stem and its decoded content, which is `None` when decoding raised.
  - A file that cannot be opened is not modelled.
  - The glob's file order is the given order.
  - Writing the table, including CSV stringification, is not modelled.
- Duplicate keys inside one JSON object are not modelled. `Get` reads the first pair, whereas `json.loads` keeps the last.
- `walmart-scraper/run.py` and `immoscout24-scraper/run.py` are orchestration scripts. They are not part of this model, and neither is the immoscout24 scraper they call.
