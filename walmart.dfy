/**
 * walmart.py: search pagination and field whitelisting.
 * Every page is given as its decoded `__NEXT_DATA__` payload; the scraping client,
 * the XPath selection and `json.loads` are outside the model. A Python exception
 * raised while reading a payload is a Failure.
 */
module Walmart {
  import opened Wrappers
  import opened JsonValues
  import opened Sequences

  /** Listings per search page. */
  const PageSize: int := 40

  /** Walmart serves at most this many search pages. */
  const PageLimit: int := 25

  /** The product fields parse_product keeps. */
  const WantedProductKeys: seq<string> := [
    "averageRating", "brand", "id", "imageInfo", "manufacturerName",
    "name", "priceInfo", "shortDescription", "type"
  ]

  /** The listing fields parse_search keeps. */
  const WantedSearchKeys: seq<string> := [
    "id", "usItemId", "name", "type", "imageInfo", "canonicalUrl",
    "salesUnitType", "sellerId", "sellerName", "averageRating", "numberOfReviews"
  ]

  /** Where the page data lives in the payload. */
  const InitialDataPath: seq<string> := ["props", "pageProps", "initialData"]
  const ProductPath: seq<string> := ["props", "pageProps", "initialData", "data", "product"]
  const ReviewsPath: seq<string> := ["props", "pageProps", "initialData", "data", "reviews"]

  /** The Python exception that aborts a scrape. */
  datatype ScrapeError =
    | MissingData   // `d[k]` on a non-dict or a dict without k (TypeError, KeyError)
    | NotADict      // `.get` or `.items()` on something that is not a dict (AttributeError)
    | NotAList      // indexing or iterating something that is not a list (TypeError, KeyError)
    | BadCount      // `total_results / 40` on a non-number (TypeError)

  // ---------------------------------------------------------------------------
  // parse_product

  /** What parse_product returns: the whitelisted product and the raw reviews. */
  datatype ProductPage = ProductPage(product: Fields, reviews: Json)

  /**
   * Reads the product and the reviews out of the payload and keeps only the
   * whitelisted product fields.
   */
  function ParseProduct(data: Json): (r: Result<ProductPage, ScrapeError>)
    ensures r.Success? <==> Follow(data, ProductPath).Some? && Follow(data, ProductPath).value.JObj?
                            && Follow(data, ReviewsPath).Some?
    ensures r.Success? ==> r.value.reviews == Follow(data, ReviewsPath).value
    ensures r.Success? ==> forall p :: p in r.value.product <==>
                                       p in Follow(data, ProductPath).value.fields && p.0 in WantedProductKeys
  {
    match Follow(data, ProductPath)
    case None => Failure(MissingData)
    case Some(raw) =>
      if !raw.JObj? then Failure(NotADict)
      else
        var product := FilterKeys(raw.fields, WantedProductKeys);
        match Follow(data, ReviewsPath)
        case None => Failure(MissingData)
        case Some(reviews) => Success(ProductPage(product, reviews))
  }

  /**
   * The product answers for a whitelisted key exactly what the raw product does, answers
   * nothing for any other key, and keeps the raw field order.
   */
  lemma ParseProductWhitelist(data: Json, k: string)
    requires ParseProduct(data).Success?
    ensures Get(ParseProduct(data).value.product, k)
            == if k in WantedProductKeys then Get(Follow(data, ProductPath).value.fields, k) else None
    ensures SubsequenceOf(ParseProduct(data).value.product, Follow(data, ProductPath).value.fields)
  {
    var raw := Follow(data, ProductPath).value.fields;
    FilterKeysGet(raw, WantedProductKeys, k);
    FilterKeysOrder(raw, WantedProductKeys);
  }

  // ---------------------------------------------------------------------------
  // parse_search

  /** The first item stack: its raw items and its reported result count. */
  datatype Stack = Stack(items: seq<Json>, count: Json)

  /** What parse_search returns. */
  datatype SearchPage = SearchPage(results: seq<Json>, totalResults: Json)

  /** `d.get(k, default)` on an object's fields. */
  function GetOr(fs: Fields, k: string, default: Json): Json {
    match Get(fs, k)
    case Some(v) => v
    case None => default
  }

  /** `j.get(k, default)`, which raises when j is not a dict. */
  function DictGet(j: Json, k: string, default: Json): Result<Json, ScrapeError> {
    if j.JObj? then Success(GetOr(j.fields, k, default)) else Failure(NotADict)
  }

  /**
   * What `for item in results` visits: the elements of a list, the keys of a dict or the
   * characters of a string. Keys and characters are strings without `.items()`, so only an
   * empty dict or string gets through; other values are not iterable.
   */
  function RawItems(results: Json): (items: Result<seq<Json>, ScrapeError>)
    ensures items.Success? <==> results.JArr? || results == JObj([]) || results == JStr("")
    ensures results.JArr? ==> items == Success(results.items)
    ensures items.Success? && !results.JArr? ==> items.value == []
  {
    match results
    case JArr(xs) => Success(xs)
    case JObj(fs) => if fs == [] then Success([]) else Failure(NotADict)
    case JStr(s) => if s == "" then Success([]) else Failure(NotADict)
    case _ => Failure(NotAList)
  }

  /** `data["props"]["pageProps"]["initialData"].get("searchResult", {}).get("itemStacks", [])` */
  function ItemStacks(data: Json): (stacks: Result<Json, ScrapeError>)
    ensures Follow(data, InitialDataPath).None? ==> stacks == Failure(MissingData)
    ensures stacks.Success? ==> Follow(data, InitialDataPath).Some? && Follow(data, InitialDataPath).value.JObj?
    ensures Follow(data, InitialDataPath).Some? && Follow(data, InitialDataPath).value.JObj?
            && Get(Follow(data, InitialDataPath).value.fields, "searchResult").None?
            ==> stacks == Success(JArr([]))
    ensures var init := Follow(data, InitialDataPath);
            init.Some? && init.value.JObj? && Get(init.value.fields, "searchResult").Some? ==>
              var sr := Get(init.value.fields, "searchResult").value;
              stacks == if sr.JObj? then Success(GetOr(sr.fields, "itemStacks", JArr([]))) else Failure(NotADict)
  {
    match Follow(data, InitialDataPath)
    case None => Failure(MissingData)
    case Some(initial) =>
      match DictGet(initial, "searchResult", JObj([]))
      case Failure(e) => Failure(e)
      case Success(searchResult) => DictGet(searchResult, "itemStacks", JArr([]))
  }

  /**
   * The first of some truthy item stacks, with its items and its count. Only a non-empty
   * list has a first element that `.get` accepts, and only when that element is a dict.
   */
  function StackOf(stacks: Json): (stack: Result<Stack, ScrapeError>)
    requires Truthy(stacks)
    ensures stack.Success? ==> stacks.JArr? && stacks.items[0].JObj?
    ensures stack.Success? ==>
              var first := stacks.items[0].fields;
              stack.value.count == (if "count" in Keys(first) then Get(first, "count").value else JNum(0))
              && ("items" !in Keys(first) ==> stack.value.items == [])
    ensures stack.Success? <==>
              stacks.JArr? && stacks.items[0].JObj? && RawItems(GetOr(stacks.items[0].fields, "items", JArr([]))).Success?
    ensures stack.Success? ==> Success(stack.value.items) == RawItems(GetOr(stacks.items[0].fields, "items", JArr([])))
  {
    if !stacks.JArr? then Failure(NotAList)
    else if !stacks.items[0].JObj? then Failure(NotADict)
    else
      var stack := stacks.items[0].fields;
      match RawItems(GetOr(stack, "items", JArr([])))
      case Failure(e) => Failure(e)
      case Success(raw) => Success(Stack(raw, GetOr(stack, "count", JNum(0))))
  }

  /** The first item stack of a search payload, None when there are no stacks. */
  function FirstStackOf(data: Json): (found: Result<Option<Stack>, ScrapeError>)
    ensures found == Success(None) <==> ItemStacks(data).Success? && !Truthy(ItemStacks(data).value)
    ensures found.Success? <==> ItemStacks(data).Success?
                                && (Truthy(ItemStacks(data).value) ==> StackOf(ItemStacks(data).value).Success?)
    ensures found.Success? && found.value.Some? ==> Success(found.value.value) == StackOf(ItemStacks(data).value)
  {
    match ItemStacks(data)
    case Failure(e) => Failure(e)
    case Success(stacks) =>
      if !Truthy(stacks) then Success(None)
      else
        match StackOf(stacks)
        case Failure(e) => Failure(e)
        case Success(stack) => Success(Some(stack))
  }

  /** `{k: v for k, v in item.items() if k in wanted_search_keys}` */
  function Refine(item: Fields): (refined: Json)
    ensures refined.JObj? && forall p :: p in refined.fields <==> p in item && p.0 in WantedSearchKeys
  {
    JObj(FilterKeys(item, WantedSearchKeys))
  }

  predicate AllObjects(items: seq<Json>) {
    forall i :: 0 <= i < |items| ==> items[i].JObj?
  }

  /** The refined items, one per raw item, in order. */
  function RefineEach(items: seq<Json>): (refined: seq<Json>)
    requires AllObjects(items)
    ensures |refined| == |items|
    ensures forall i :: 0 <= i < |items| ==> refined[i] == Refine(items[i].fields)
    decreases |items|
  {
    if items == [] then []
    else
      var init := items[..|items| - 1];
      assert AllObjects(init) by {
        forall i | 0 <= i < |init| ensures init[i].JObj? { assert init[i] == items[i]; }
      }
      RefineEach(init) + [Refine(items[|items| - 1].fields)]
  }

  /**
   * What parse_search answers for a payload: no results and count 0 without item stacks;
   * otherwise the refined items of the first stack, in order, and its count.
   */
  function SearchPageOf(data: Json): Result<SearchPage, ScrapeError> {
    match FirstStackOf(data)
    case Failure(e) => Failure(e)
    case Success(None) => Success(SearchPage([], JNum(0)))
    case Success(Some(stack)) =>
      if AllObjects(stack.items) then Success(SearchPage(RefineEach(stack.items), stack.count))
      else Failure(NotADict)
  }

  /**
   * parse_search answers no results and count 0 without item stacks; it fails exactly when
   * the payload cannot be read or a raw item is not a dict; otherwise it answers the count
   * of the first stack and one refined listing per raw item, in order.
   */
  lemma SearchPageMeaning(data: Json)
    ensures FirstStackOf(data) == Success(None) ==> SearchPageOf(data) == Success(SearchPage([], JNum(0)))
    ensures SearchPageOf(data).Success? <==>
              FirstStackOf(data).Success?
              && (FirstStackOf(data).value.Some? ==> AllObjects(FirstStackOf(data).value.value.items))
    ensures SearchPageOf(data).Success? && FirstStackOf(data).value.Some? ==>
              var stack := FirstStackOf(data).value.value;
              var page := SearchPageOf(data).value;
              page.totalResults == stack.count
              && |page.results| == |stack.items|
              && forall i :: 0 <= i < |stack.items| ==> page.results[i] == Refine(stack.items[i].fields)
  {
  }

  /** Every listing parse_search returns holds exactly the whitelisted fields of its raw item. */
  lemma SearchResultWhitelist(data: Json, i: nat, k: string)
    requires SearchPageOf(data).Success? && i < |SearchPageOf(data).value.results|
    ensures FirstStackOf(data).value.Some?
    ensures Get(SearchPageOf(data).value.results[i].fields, k)
            == if k in WantedSearchKeys then Get(FirstStackOf(data).value.value.items[i].fields, k) else None
    ensures SubsequenceOf(SearchPageOf(data).value.results[i].fields, FirstStackOf(data).value.value.items[i].fields)
  {
    SearchPageMeaning(data);
    var raw := FirstStackOf(data).value.value.items[i].fields;
    FilterKeysGet(raw, WantedSearchKeys, k);
    FilterKeysOrder(raw, WantedSearchKeys);
  }

  /** parse_search: looks up the first stack, then refines its items one by one. */
  method ParseSearch(data: Json) returns (r: Result<SearchPage, ScrapeError>)
    ensures r == SearchPageOf(data)
  {
    var stacks := ItemStacks(data);
    if stacks.Failure? {
      return Failure(stacks.error);
    }
    if !Truthy(stacks.value) {
      return Success(SearchPage([], JNum(0)));
    }
    var found := StackOf(stacks.value);
    if found.Failure? {
      return Failure(found.error);
    }
    var stack := found.value;
    var refined := RefineItems(stack.items);
    if refined.None? {
      return Failure(NotADict);
    }
    r := Success(SearchPage(refined.value, stack.count));
  }

  /** The loop of parse_search: refines the raw items one by one; None where `.items()` raises. */
  method RefineItems(items: seq<Json>) returns (r: Option<seq<Json>>)
    ensures r.Some? <==> AllObjects(items)
    ensures r.Some? ==> r.value == RefineEach(items)
  {
    var refined: seq<Json> := [];
    for k := 0 to |items|
      invariant AllObjects(items[..k])
      invariant refined == RefineEach(items[..k])
    {
      var item := items[k];
      if !item.JObj? {
        assert !AllObjects(items);
        return None;
      }
      TakeOneMore(items, k);
      assert AllObjects(items[..k + 1]);
      refined := refined + [Refine(item.fields)];
    }
    TakeAll(items);
    r := Some(refined);
  }

  // ---------------------------------------------------------------------------
  // scrape_search: page count

  /** `math.ceil(n / d)`, exactly. */
  function CeilDiv(n: int, d: int): (q: int)
    requires d > 0
    ensures (q - 1) * d < n <= q * d
  {
    var q := (n + d - 1) / d;
    assert q * d + (n + d - 1) % d == n + d - 1;
    q
  }

  /**
   * `math.ceil(total_results / 40) if total_results else 0`: a falsy count gives 0 pages,
   * a number its ceiling, True (1/40 of a page) one page; anything else cannot be divided.
   */
  function RawPages(totalResults: Json): (pages: Result<int, ScrapeError>)
    ensures !Truthy(totalResults) ==> pages == Success(0)
    ensures pages.Success? && totalResults.JNum? ==>
              (pages.value - 1) * PageSize < totalResults.n <= pages.value * PageSize
    ensures totalResults == JBool(true) ==> pages == Success(1)
    ensures pages.Failure? <==> Truthy(totalResults) && !totalResults.JNum? && !totalResults.JBool?
  {
    if !Truthy(totalResults) then Success(0)
    else match totalResults
      case JNum(n) => Success(CeilDiv(n, PageSize))
      case JBool(_) => Success(1)
      case _ => Failure(BadCount)
  }

  /** `max_pages` is truthy: given and not 0. */
  predicate Limits(maxPages: Option<int>) {
    maxPages.Some? && maxPages.value != 0
  }

  /**
   * The number of pages scrape_search settles on: the raw page count, lowered to Walmart's
   * limit, then lowered to max_pages when that is truthy.
   */
  function PageCount(totalResults: Json, maxPages: Option<int>): (pages: Result<int, ScrapeError>)
    ensures pages.Failure? <==> RawPages(totalResults).Failure?
    ensures pages.Success? ==> pages.value <= PageLimit && pages.value <= RawPages(totalResults).value
    ensures pages.Success? && Limits(maxPages) ==> pages.value <= maxPages.value
    ensures pages.Success? ==> pages.value == RawPages(totalResults).value || pages.value == PageLimit
                               || (Limits(maxPages) && pages.value == maxPages.value)
    ensures pages.Success? && !Limits(maxPages) ==>
              pages.value == if RawPages(totalResults).value <= PageLimit then RawPages(totalResults).value else PageLimit
  {
    match RawPages(totalResults)
    case Failure(e) => Failure(e)
    case Success(raw) =>
      var capped := if raw <= PageLimit then raw else PageLimit;
      if Limits(maxPages) then Success(if maxPages.value <= capped then maxPages.value else capped)
      else Success(capped)
  }

  /** A falsy count gives no pages unless a negative max_pages drags the count below zero. */
  lemma NoResultsNoPages(totalResults: Json, maxPages: Option<int>)
    requires !Truthy(totalResults)
    requires maxPages.None? || maxPages.value >= 0
    ensures PageCount(totalResults, maxPages) == Success(0)
  {
  }

  // ---------------------------------------------------------------------------
  // scrape_search: follow-up pages

  /** `range(2, total_pages + 1)`: the ordinals of the pages after the first. */
  function FollowUpOrdinals(totalPages: int): (ords: seq<int>)
    ensures |ords| == if totalPages < 2 then 0 else totalPages - 1
    ensures forall i :: 0 <= i < |ords| ==> ords[i] == i + 2
    decreases totalPages
  {
    if totalPages < 2 then [] else FollowUpOrdinals(totalPages - 1) + [totalPages]
  }

  /**
   * The follow-up ordinals are exactly 2 to total_pages, strictly increasing, so page 1
   * is never requested twice.
   */
  lemma FollowUpOrdinalsExactly(totalPages: int)
    ensures forall p :: p in FollowUpOrdinals(totalPages) <==> 2 <= p <= totalPages
    ensures 1 !in FollowUpOrdinals(totalPages)
    ensures forall i, j :: 0 <= i < j < |FollowUpOrdinals(totalPages)| ==>
              FollowUpOrdinals(totalPages)[i] < FollowUpOrdinals(totalPages)[j]
  {
    var ords := FollowUpOrdinals(totalPages);
    forall p | 2 <= p <= totalPages ensures p in ords {
      assert ords[p - 2] == p;
    }
  }

  /** The results one follow-up page contributes. */
  function PageResultsOf(response: Json): seq<Json> {
    if SearchPageOf(response).Success? then SearchPageOf(response).value.results else []
  }

  /** Every follow-up payload parses. */
  predicate AllParse(responses: seq<Json>) {
    forall i :: 0 <= i < |responses| ==> SearchPageOf(responses[i]).Success?
  }

  /** The number of listings on the follow-up pages. */
  function ResultCount(responses: seq<Json>): nat
    decreases |responses|
  {
    if responses == [] then 0
    else ResultCount(responses[..|responses| - 1]) + |PageResultsOf(responses[|responses| - 1])|
  }

  /**
   * scrape_search with the page fetches made into inputs: `first` is the payload of page 1 and
   * `responses` are the follow-up payloads in the order they arrive. `requested` are the
   * ordinals of the follow-up pages it asks for.
   */
  method ScrapeSearch(first: Json, maxPages: Option<int>, responses: seq<Json>)
    returns (r: Result<seq<Json>, ScrapeError>, requested: seq<int>)
    ensures SearchPageOf(first).Failure? ==> r.Failure? && requested == []
    ensures SearchPageOf(first).Success? && PageCount(SearchPageOf(first).value.totalResults, maxPages).Failure?
            ==> r.Failure? && requested == []
    ensures SearchPageOf(first).Success? && PageCount(SearchPageOf(first).value.totalResults, maxPages).Success?
            ==> var page := SearchPageOf(first).value;
                var pages := PageCount(page.totalResults, maxPages).value;
                if pages <= 1 then r == Success(page.results) && requested == []
                else requested == FollowUpOrdinals(pages)
                     && (r.Success? <==> AllParse(responses))
                     && (r.Success? ==> r.value == page.results + FlatMap(responses, PageResultsOf))
  {
    requested := [];
    var data := ParseSearch(first);
    if data.Failure? {
      return Failure(data.error), requested;
    }
    var searchData := data.value.results;
    var totalResults := data.value.totalResults;

    var raw := RawPages(totalResults);
    if raw.Failure? {
      return Failure(raw.error), requested;
    }
    var totalPages := raw.value;
    if PageLimit < totalPages {
      totalPages := PageLimit;
    }
    if Limits(maxPages) && maxPages.value < totalPages {
      totalPages := maxPages.value;
    }
    assert PageCount(totalResults, maxPages) == Success(totalPages);

    if totalPages <= 1 {
      return Success(searchData), requested;
    }

    requested := FollowUpOrdinals(totalPages);
    r := ExtendWithPages(searchData, responses);
  }

  /** The `async for` loop of scrape_search: extends the listings with each follow-up page's results. */
  method ExtendWithPages(searchData: seq<Json>, responses: seq<Json>) returns (r: Result<seq<Json>, ScrapeError>)
    ensures r.Success? <==> AllParse(responses)
    ensures r.Success? ==> r.value == searchData + FlatMap(responses, PageResultsOf)
  {
    var harvest := searchData;
    FlatMapNone(searchData, responses, PageResultsOf);
    for i := 0 to |responses|
      invariant harvest == searchData + FlatMap(responses[..i], PageResultsOf)
      invariant forall j :: 0 <= j < i ==> SearchPageOf(responses[j]).Success?
    {
      var next := ParseSearch(responses[i]);
      if next.Failure? {
        return Failure(next.error);
      }
      assert forall j :: 0 <= j < i + 1 ==> SearchPageOf(responses[j]).Success?;
      assert PageResultsOf(responses[i]) == next.value.results;
      TakeOneMore(responses, i);
      FlatMapSnoc(responses[..i], responses[i], PageResultsOf);
      AppendAssoc(searchData, FlatMap(responses[..i], PageResultsOf), next.value.results);
      harvest := harvest + next.value.results;
    }
    TakeAll(responses);
    r := Success(harvest);
  }

  /**
   * The harvest holds page 1's results followed by every follow-up page's results, whole and
   * in arrival order: its length is the sum of the page lengths.
   */
  lemma {:induction false} HarvestLength(firstResults: seq<Json>, responses: seq<Json>)
    ensures |firstResults + FlatMap(responses, PageResultsOf)| == |firstResults| + ResultCount(responses)
    decreases |responses|
  {
    if responses != [] {
      HarvestLength(firstResults, responses[..|responses| - 1]);
    }
  }

  /** Listing i of page 1 stays at position i; listing i of follow-up page p follows the pages before it. */
  lemma HarvestOrder(firstResults: seq<Json>, responses: seq<Json>, p: nat, i: nat)
    requires p < |responses| && i < |PageResultsOf(responses[p])|
    ensures var harvest := firstResults + FlatMap(responses, PageResultsOf);
            |firstResults| + |FlatMap(responses[..p], PageResultsOf)| + i < |harvest|
            && harvest[|firstResults| + |FlatMap(responses[..p], PageResultsOf)| + i] == PageResultsOf(responses[p])[i]
    ensures forall j :: 0 <= j < |firstResults| ==> (firstResults + FlatMap(responses, PageResultsOf))[j] == firstResults[j]
  {
    FlatMapAt(responses, PageResultsOf, p, i);
  }

  /** The page counts and follow-up ordinals of three typical searches. */
  lemma PaginationScenarios()
    ensures PageCount(JNum(85), None) == Success(3) && FollowUpOrdinals(3) == [2, 3]
    ensures PageCount(JNum(2000), None) == Success(25) && |FollowUpOrdinals(25)| == 24
    ensures PageCount(JNum(2000), Some(2)) == Success(2) && FollowUpOrdinals(2) == [2]
  {
  }
}
