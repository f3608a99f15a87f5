/**
 * The product list page: the filters, the pagination state and `fetchProducts`,
 * which builds the request URL from the filters and replaces the list and the
 * pagination state with what the API returns.
 */
module ProductList {
  import opened Options
  import opened Text
  import opened Products
  import Pagination

  // ---------------------------------------------------------------------------
  // The request URL
  // ---------------------------------------------------------------------------

  /** One `key=value` pair of the query string. */
  type Param = (string, string)

  /** The query parameters in the order `fetchProducts` appends them; inactive filters add nothing. */
  function QueryParams(page: int, name: string, status: string, location: string): (ps: seq<Param>)
    ensures |ps| >= 1 && ps[0] == ("page", IntString(page))
  {
    [("page", IntString(page))]
    + (if name != "" then [("search", name)] else [])
    + (if status != "all" then [("is_active", if status == "true" then "1" else "0")] else [])
    + (if location != "all" then [("sales_location", location)] else [])
  }

  function Field(p: Param): string {
    p.0 + "=" + p.1
  }

  /** The parameters as `k=v` fields joined by `&`. */
  function Render(ps: seq<Param>): string
    requires |ps| >= 1
  {
    if |ps| == 1 then Field(ps[0]) else Field(ps[0]) + "&" + Render(ps[1..])
  }

  /** The URL the list is fetched from: the name and the location go in verbatim, without URL-encoding. */
  function ProductsUrl(apiUrl: string, page: int, name: string, status: string, location: string): string {
    apiUrl + "/products?" + Render(QueryParams(page, name, status, location))
  }

  /** Appending one more parameter appends `&` and its field. */
  lemma {:induction false} RenderSnoc(ps: seq<Param>, p: Param)
    requires |ps| >= 1
    ensures Render(ps + [p]) == Render(ps) + "&" + Field(p)
    decreases |ps|
  {
    if |ps| == 1 {
      assert (ps + [p])[1..] == [p];
    } else {
      assert (ps + [p])[1..] == ps[1..] + [p];
      RenderSnoc(ps[1..], p);
    }
  }

  /** One `url += "&key=value"` step of `fetchProducts` appends one parameter. */
  lemma AppendParam(prefix: string, ps: seq<Param>, key: string, value: string)
    requires |ps| >= 1
    ensures prefix + Render(ps) + ("&" + key + "=") + value == prefix + Render(ps + [(key, value)])
  {
    RenderSnoc(ps, (key, value));
    AppendSteps(prefix, Render(ps), key, value);
  }

  /** The URL before any filter: the page parameter alone. */
  lemma FirstParam(apiUrl: string, page: string)
    ensures apiUrl + "/products?page=" + page == apiUrl + "/products?" + Render([("page", page)])
  {
    assert "/products?page=" == "/products?" + ("page" + "=");
    assert Render([("page", page)]) == "page" + "=" + page;
  }

  /** The separators `fetchProducts` writes before each filter. */
  lemma Separators()
    ensures "&search=" == "&" + "search" + "="
    ensures "&is_active=" == "&" + "is_active" + "="
    ensures "&sales_location=" == "&" + "sales_location" + "="
  {
  }

  lemma AppendSteps(prefix: string, r: string, key: string, value: string)
    ensures prefix + r + ("&" + key + "=") + value == prefix + (r + "&" + (key + "=" + value))
  {
    var step := "&" + key + "=";
    assert step + value == "&" + (key + "=" + value);
    calc {
      prefix + r + step + value;
      (prefix + r) + (step + value);
      (prefix + r) + ("&" + (key + "=" + value));
      prefix + (r + "&" + (key + "=" + value));
    }
  }

  // Reading a query string back by splitting it at `&` and then at the first `=`.

  /** The position of the first `c` in `s`, or |s| when there is none. */
  function IndexOf(s: string, c: char): (i: nat)
    ensures i <= |s| && c !in s[..i]
    ensures i < |s| ==> s[i] == c
  {
    if s == [] then 0
    else if s[0] == c then 0
    else
      var i := 1 + IndexOf(s[1..], c);
      assert s[..i] == [s[0]] + s[1..][..i - 1];
      i
  }

  /** `s` cut at every `c`. */
  function SplitOn(s: string, c: char): (parts: seq<string>)
    ensures |parts| >= 1
    decreases |s|
  {
    var i := IndexOf(s, c);
    if i == |s| then [s] else [s[..i]] + SplitOn(s[i + 1..], c)
  }

  /** A field cut at its first `=`: the key before it, the value after it. */
  function ParseField(f: string): Param {
    var i := IndexOf(f, '=');
    if i == |f| then (f, "") else (f[..i], f[i + 1..])
  }

  function ParseQuery(q: string): (ps: seq<Param>)
    ensures |ps| >= 1
  {
    var parts := SplitOn(q, '&');
    seq(|parts|, k requires 0 <= k < |parts| => ParseField(parts[k]))
  }

  /** The first value given for `key`. */
  function Lookup(ps: seq<Param>, key: string): Option<string> {
    if ps == [] then None else if ps[0].0 == key then Some(ps[0].1) else Lookup(ps[1..], key)
  }

  /** A parameter whose key holds no `=` or `&`, and whose value holds no `&`, survives the round trip. */
  predicate Plain(p: Param) {
    '=' !in p.0 && '&' !in p.0 && '&' !in p.1
  }

  lemma ParseFieldOfField(p: Param)
    requires Plain(p)
    ensures ParseField(Field(p)) == p
  {
    var f := Field(p);
    IndexOfAt(p.0, "=" + p.1, '=');
    assert f == p.0 + ("=" + p.1);
    assert f[..|p.0|] == p.0 && f[|p.0| + 1..] == p.1;
  }

  /** The first `c` in `a + b` when `a` holds none and `b` starts with one. */
  lemma {:induction false} IndexOfAt(a: string, b: string, c: char)
    requires c !in a && b != [] && b[0] == c
    ensures IndexOf(a + b, c) == |a|
    decreases |a|
  {
    if a != [] {
      assert (a + b)[1..] == a[1..] + b;
      IndexOfAt(a[1..], b, c);
    }
  }

  /** The fields of the parameters, in order. */
  function Fields(ps: seq<Param>): (r: seq<string>)
    ensures |r| == |ps| && forall k :: 0 <= k < |ps| ==> r[k] == Field(ps[k])
  {
    if ps == [] then [] else [Field(ps[0])] + Fields(ps[1..])
  }

  lemma {:induction false} SplitOfRender(ps: seq<Param>)
    requires |ps| >= 1 && AllPlain(ps)
    ensures SplitOn(Render(ps), '&') == Fields(ps)
    decreases |ps|
  {
    var f := Field(ps[0]);
    FieldHasNoAmp(ps[0]);
    if |ps| == 1 {
      NoIndex(f, '&');
    } else {
      var rest := Render(ps[1..]);
      assert Render(ps) == f + ("&" + rest);
      SplitStep(f, rest);
      SplitOfRender(ps[1..]);
    }
  }

  /** Cutting at `&` past a first field without one. */
  lemma SplitStep(f: string, rest: string)
    requires '&' !in f
    ensures SplitOn(f + ("&" + rest), '&') == [f] + SplitOn(rest, '&')
  {
    var s := f + ("&" + rest);
    IndexOfAt(f, "&" + rest, '&');
    assert s[..|f|] == f && s[|f| + 1..] == rest;
  }

  /** A plain parameter's field holds no `&`. */
  lemma FieldHasNoAmp(p: Param)
    requires Plain(p)
    ensures '&' !in Field(p)
  {
    var f := Field(p);
    forall i | 0 <= i < |f| ensures f[i] != '&' {
      assert f[i] in p.0 || f[i] == '=' || f[i] in p.1;
    }
  }

  lemma NoIndex(s: string, c: char)
    requires c !in s
    ensures IndexOf(s, c) == |s|
  {
  }

  /** Reading back the query of a URL gives the parameters it was built from. */
  lemma ParseRender(ps: seq<Param>)
    requires |ps| >= 1 && AllPlain(ps)
    ensures ParseQuery(Render(ps)) == ps
  {
    SplitOfRender(ps);
    forall k | 0 <= k < |ps|
      ensures ParseField(Field(ps[k])) == ps[k]
    {
      ParseFieldOfField(ps[k]);
    }
  }

  /**
   * What the query of the list URL says, split back at `&` and `=`: the page always, and each
   * filter exactly when it is active, `is_active` being 1 for `"true"` and 0
   * for any other status; provided the name and the location hold no `&`.
   */
  lemma QueryMeaning(page: int, name: string, status: string, location: string)
    requires '&' !in name && '&' !in location
    ensures var q := ParseQuery(Render(QueryParams(page, name, status, location)));
      && q[0] == ("page", IntString(page))
      && Lookup(q, "search") == (if name != "" then Some(name) else None)
      && Lookup(q, "is_active") == (if status == "all" then None else if status == "true" then Some("1") else Some("0"))
      && Lookup(q, "sales_location") == (if location != "all" then Some(location) else None)
  {
    var ps := QueryParams(page, name, status, location);
    QueryParamsPlain(page, name, status, location);
    ParseRender(ps);
    QueryLookups(page, name, status, location);
  }

  lemma QueryParamsPlain(page: int, name: string, status: string, location: string)
    requires '&' !in name && '&' !in location
    ensures AllPlain(QueryParams(page, name, status, location))
  {
    var p0: Param := ("page", IntString(page));
    var s1: seq<Param> := if name != "" then [("search", name)] else [];
    var s2: seq<Param> := if status != "all" then [("is_active", if status == "true" then "1" else "0")] else [];
    var s3: seq<Param> := if location != "all" then [("sales_location", location)] else [];
    NoAmpInIntString(page);
    KeysPlain();
    PlainSingle(p0);
    if name != "" { PlainSingle(("search", name)); }
    if status != "all" { PlainSingle(("is_active", if status == "true" then "1" else "0")); }
    if location != "all" { PlainSingle(("sales_location", location)); }
    AllPlainConcat([p0], s1);
    AllPlainConcat([p0] + s1, s2);
    AllPlainConcat([p0] + s1 + s2, s3);
    assert QueryParams(page, name, status, location) == [p0] + s1 + s2 + s3;
  }

  predicate AllPlain(ps: seq<Param>) {
    forall k :: 0 <= k < |ps| ==> Plain(ps[k])
  }

  /** The four keys the list page sends hold neither `=` nor `&`. */
  lemma KeysPlain()
    ensures '=' !in "page" && '&' !in "page"
    ensures '=' !in "search" && '&' !in "search"
    ensures '=' !in "is_active" && '&' !in "is_active"
    ensures '=' !in "sales_location" && '&' !in "sales_location"
  {
  }

  lemma PlainSingle(p: Param)
    requires Plain(p)
    ensures AllPlain([p])
  {
  }

  lemma AllPlainConcat(a: seq<Param>, b: seq<Param>)
    requires AllPlain(a) && AllPlain(b)
    ensures AllPlain(a + b)
  {
    forall k | 0 <= k < |a + b| ensures Plain((a + b)[k]) {
      if k >= |a| {
        assert (a + b)[k] == b[k - |a|];
      }
    }
  }

  /** A page number, signed or not, holds no `&`. */
  lemma NoAmpInIntString(i: int)
    ensures '&' !in IntString(i)
  {
    var s := IntString(i);
    if i < 0 {
      assert s == "-" + s[1..];
      assert '&' !in s[1..] by {
        forall j | 0 <= j < |s[1..]| ensures s[1..][j] != '&' {
          assert IsDigit(s[1..][j]);
        }
      }
    } else {
      forall j | 0 <= j < |s| ensures s[j] != '&' {
        assert IsDigit(s[j]);
      }
    }
  }

  lemma QueryLookups(page: int, name: string, status: string, location: string)
    ensures var ps := QueryParams(page, name, status, location);
      && Lookup(ps, "search") == (if name != "" then Some(name) else None)
      && Lookup(ps, "is_active") == (if status == "all" then None else if status == "true" then Some("1") else Some("0"))
      && Lookup(ps, "sales_location") == (if location != "all" then Some(location) else None)
  {
    var p0: Param := ("page", IntString(page));
    var s1: seq<Param> := if name != "" then [("search", name)] else [];
    var s2: seq<Param> := if status != "all" then [("is_active", if status == "true" then "1" else "0")] else [];
    var s3: seq<Param> := if location != "all" then [("sales_location", location)] else [];
    assert QueryParams(page, name, status, location) == [p0] + s1 + s2 + s3;
    LookupFour(p0, s1, s2, s3, "search");
    LookupFour(p0, s1, s2, s3, "is_active");
    LookupFour(p0, s1, s2, s3, "sales_location");
  }

  /** Looking a key up past a first parameter of another key, through three optional ones. */
  lemma LookupFour(p0: Param, s1: seq<Param>, s2: seq<Param>, s3: seq<Param>, key: string)
    requires p0.0 != key
    ensures Lookup([p0] + s1 + s2 + s3, key)
      == if Lookup(s1, key).Some? then Lookup(s1, key) else if Lookup(s2, key).Some? then Lookup(s2, key) else Lookup(s3, key)
  {
    LookupAppend([p0] + s1 + s2, s3, key);
    LookupAppend([p0] + s1, s2, key);
    LookupAppend([p0], s1, key);
  }

  lemma {:induction false} LookupAppend(a: seq<Param>, b: seq<Param>, key: string)
    ensures Lookup(a + b, key) == if Lookup(a, key).Some? then Lookup(a, key) else Lookup(b, key)
  {
    if a == [] {
      assert a + b == b;
    } else {
      assert (a + b)[1..] == a[1..] + b;
      LookupAppend(a[1..], b, key);
    }
  }

  /** With no filter set the query holds the page alone. */
  lemma UnfilteredUrl(apiUrl: string, page: int)
    ensures ProductsUrl(apiUrl, page, "", "all", "all") == apiUrl + "/products?page=" + IntString(page)
  {
    FirstParam(apiUrl, IntString(page));
    assert QueryParams(page, "", "all", "all") == [("page", IntString(page))];
  }

  /** Every filter set, on page 2: `?page=2&search=shirt&is_active=1&sales_location=store`. */
  lemma ShirtUrl(apiUrl: string)
    ensures ProductsUrl(apiUrl, 2, "shirt", "true", "store")
      == apiUrl + "/products?" + "page=2" + "&" + "search=shirt" + "&" + "is_active=1" + "&" + "sales_location=store"
  {
    var p0, p1, p2, p3 := ("page", "2"), ("search", "shirt"), ("is_active", "1"), ("sales_location", "store");
    ShirtParams();
    RenderFour(p0, p1, p2, p3);
    ShirtFields();
  }

  lemma ShirtParams()
    ensures QueryParams(2, "shirt", "true", "store") == [("page", "2"), ("search", "shirt"), ("is_active", "1"), ("sales_location", "store")]
  {
    assert IntString(2) == "2" by {
      assert Decimal(2) == [DigitChar(2)];
    }
  }

  lemma ShirtFields()
    ensures Field(("page", "2")) == "page=2" && Field(("search", "shirt")) == "search=shirt"
    ensures Field(("is_active", "1")) == "is_active=1" && Field(("sales_location", "store")) == "sales_location=store"
  {
  }

  lemma RenderFour(p0: Param, p1: Param, p2: Param, p3: Param)
    ensures Render([p0, p1, p2, p3]) == Field(p0) + "&" + Field(p1) + "&" + Field(p2) + "&" + Field(p3)
  {
    var f0, f1, f2, f3 := Field(p0), Field(p1), Field(p2), Field(p3);
    assert [p2, p3][1..] == [p3];
    assert Render([p2, p3]) == f2 + "&" + f3;
    assert [p1, p2, p3][1..] == [p2, p3];
    assert Render([p1, p2, p3]) == f1 + "&" + (f2 + "&" + f3);
    assert [p0, p1, p2, p3][1..] == [p1, p2, p3];
    assert Render([p0, p1, p2, p3]) == f0 + "&" + (f1 + "&" + (f2 + "&" + f3));
  }

  /**
   * The name is not encoded, so a `#` in it starts the URL's fragment: for the
   * name `a#b` among active products, `is_active=1` follows the `#`.
   */
  lemma NameFragmentHidesFilter(apiUrl: string, page: int)
    ensures ProductsUrl(apiUrl, page, "a#b", "true", "all")
      == apiUrl + "/products?" + ("page=" + IntString(page)) + "&" + "search=a" + "#" + "b" + "&" + "is_active=1"
  {
    var p0, p1, p2 := ("page", IntString(page)), ("search", "a#b"), ("is_active", "1");
    FragmentParams(page);
    RenderThree(p0, p1, p2);
    FragmentFields();
  }

  lemma FragmentParams(page: int)
    ensures QueryParams(page, "a#b", "true", "all") == [("page", IntString(page)), ("search", "a#b"), ("is_active", "1")]
  {
  }

  lemma FragmentFields()
    ensures Field(("search", "a#b")) == "search=a" + "#" + "b" && Field(("is_active", "1")) == "is_active=1"
  {
    assert "a#b" == "a" + "#" + "b";
  }

  lemma RenderThree(p0: Param, p1: Param, p2: Param)
    ensures Render([p0, p1, p2]) == Field(p0) + "&" + Field(p1) + "&" + Field(p2)
  {
    var f0, f1, f2 := Field(p0), Field(p1), Field(p2);
    assert [p1, p2][1..] == [p2];
    assert Render([p1, p2]) == f1 + "&" + f2;
    assert [p0, p1, p2][1..] == [p1, p2];
    assert Render([p0, p1, p2]) == f0 + "&" + (f1 + "&" + f2);
  }

  /**
   * The name is not encoded, so a name can carry a filter of its own: searching
   * for `a&is_active=1` requests the very URL of searching `a` among active products.
   */
  lemma NameCarriesFilter(apiUrl: string, page: int)
    ensures ProductsUrl(apiUrl, page, "a&is_active=1", "all", "all") == ProductsUrl(apiUrl, page, "a", "true", "all")
  {
    var first: seq<Param> := [("page", IntString(page))];
    assert "a&is_active=1" == "a" + "&" + "is_active" + "=" + "1";
    assert QueryParams(page, "a&is_active=1", "all", "all") == first + [("search", "a" + "&" + "is_active" + "=" + "1")];
    assert QueryParams(page, "a", "true", "all") == first + [("search", "a"), ("is_active", "1")];
    ValueCarriesParam(first, "search", "a", "is_active", "1");
  }

  /** A value holding `&k2=v2` renders exactly as a second parameter `k2=v2` would. */
  lemma ValueCarriesParam(ps: seq<Param>, k: string, v: string, k2: string, v2: string)
    requires |ps| >= 1
    ensures Render(ps + [(k, v + "&" + k2 + "=" + v2)]) == Render(ps + [(k, v), (k2, v2)])
  {
    RenderSnoc(ps, (k, v + "&" + k2 + "=" + v2));
    RenderSnoc(ps, (k, v));
    assert ps + [(k, v), (k2, v2)] == (ps + [(k, v)]) + [(k2, v2)];
    RenderSnoc(ps + [(k, v)], (k2, v2));
    CarrySteps(Render(ps), k, v, k2, v2);
  }

  lemma CarrySteps(r: string, k: string, v: string, k2: string, v2: string)
    ensures r + "&" + (k + "=" + (v + "&" + k2 + "=" + v2)) == r + "&" + (k + "=" + v) + "&" + (k2 + "=" + v2)
  {
  }

  // ---------------------------------------------------------------------------
  // The page state
  // ---------------------------------------------------------------------------

  /** The body of a successful response. */
  datatype Response = Response(items: seq<Product>, current_page: int, total_pages: int, total_items: int)

  /** How a request ended: a body was read, or `fetch`/`json()` threw. */
  datatype FetchOutcome = Returned(data: Response) | Threw

  class ListPage {
    /** The API's base URL, fixed at build time. */
    const apiUrl: string

    var showFilters: bool
    var locationFilter: string
    var productName: string
    var status: string
    var currentPage: int
    var totalPages: int
    var totalResults: int
    var products: seq<Product>
    var isLoading: bool
    /** Every URL requested so far, oldest first. */
    var requests: seq<string>
    /** How many error notifications were raised. */
    var errorToasts: nat

    /** The state of a freshly mounted page, before its first request. */
    constructor(apiUrl: string)
      ensures this.apiUrl == apiUrl
      ensures !showFilters && locationFilter == "all" && productName == "" && status == "all"
      ensures currentPage == 1 && totalPages == 0 && totalResults == 0
      ensures products == [] && !isLoading && requests == [] && errorToasts == 0
    {
      this.apiUrl := apiUrl;
      showFilters := false;
      locationFilter := "all";
      productName := "";
      status := "all";
      currentPage := 1;
      totalPages := 0;
      totalResults := 0;
      products := [];
      isLoading := false;
      requests := [];
      errorToasts := 0;
    }

    /** What the pagination bar is given. */
    function PaginationProps(): Pagination.Props
      reads this
    {
      Pagination.Props(currentPage, totalPages, totalResults)
    }

    /** The URL of `page` under the current filters, built by successive appends. */
    method BuildUrl(page: int) returns (url: string)
      ensures url == ProductsUrl(apiUrl, page, productName, status, locationFilter)
    {
      var prefix := apiUrl + "/products?";
      ghost var ps: seq<Param> := [("page", IntString(page))];
      url := apiUrl + "/products?page=" + IntString(page);
      FirstParam(apiUrl, IntString(page));
      Separators();
      if productName != "" {
        AppendParam(prefix, ps, "search", productName);
        ps := ps + [("search", productName)];
        url := url + "&search=" + productName;
      }
      assert url == prefix + Render(ps);
      if status != "all" {
        var flag := if status == "true" then "1" else "0";
        AppendParam(prefix, ps, "is_active", flag);
        ps := ps + [("is_active", flag)];
        url := url + "&is_active=" + flag;
      }
      assert url == prefix + Render(ps);
      if locationFilter != "all" {
        AppendParam(prefix, ps, "sales_location", locationFilter);
        ps := ps + [("sales_location", locationFilter)];
        url := url + "&sales_location=" + locationFilter;
      }
      assert url == prefix + Render(ps);
      assert ps == QueryParams(page, productName, status, locationFilter);
    }

    /** The first half of `fetchProducts`: loading starts and the request goes out. */
    method BeginFetch(page: int)
      modifies this
      ensures isLoading
      ensures requests == old(requests) + [ProductsUrl(apiUrl, page, productName, status, locationFilter)]
      ensures showFilters == old(showFilters) && locationFilter == old(locationFilter)
      ensures productName == old(productName) && status == old(status)
      ensures currentPage == old(currentPage) && totalPages == old(totalPages) && totalResults == old(totalResults)
      ensures products == old(products) && errorToasts == old(errorToasts)
    {
      isLoading := true;
      var url := BuildUrl(page);
      requests := requests + [url];
    }

    /**
     * The second half: a body replaces the list and the three pagination
     * numbers wholesale; a failure only raises a notification. Loading ends
     * either way, and the filters are never touched.
     */
    method SettleFetch(outcome: FetchOutcome)
      modifies this
      ensures !isLoading
      ensures outcome.Returned? ==>
        && products == outcome.data.items && currentPage == outcome.data.current_page
        && totalPages == outcome.data.total_pages && totalResults == outcome.data.total_items
        && errorToasts == old(errorToasts)
      ensures outcome.Threw? ==>
        && products == old(products) && currentPage == old(currentPage)
        && totalPages == old(totalPages) && totalResults == old(totalResults)
        && errorToasts == old(errorToasts) + 1
      ensures showFilters == old(showFilters) && locationFilter == old(locationFilter)
      ensures productName == old(productName) && status == old(status)
      ensures requests == old(requests)
    {
      match outcome {
        case Returned(data) =>
          products := data.items;
          currentPage := data.current_page;
          totalPages := data.total_pages;
          totalResults := data.total_items;
        case Threw =>
          errorToasts := errorToasts + 1;
      }
      isLoading := false;
    }

    /** `fetchProducts(page)` when nothing else happens while the request is out. */
    method FetchProducts(page: int, outcome: FetchOutcome)
      modifies this
      ensures requests == old(requests) + [ProductsUrl(apiUrl, page, productName, status, locationFilter)]
      ensures !isLoading
      ensures outcome.Returned? ==>
        && products == outcome.data.items && currentPage == outcome.data.current_page
        && totalPages == outcome.data.total_pages && totalResults == outcome.data.total_items
        && errorToasts == old(errorToasts)
      ensures outcome.Threw? ==>
        && products == old(products) && currentPage == old(currentPage)
        && totalPages == old(totalPages) && totalResults == old(totalResults)
        && errorToasts == old(errorToasts) + 1
      ensures showFilters == old(showFilters) && locationFilter == old(locationFilter)
      ensures productName == old(productName) && status == old(status)
    {
      BeginFetch(page);
      SettleFetch(outcome);
    }

    /** The effect on mounting: the current page is fetched. */
    method Mount()
      modifies this
      ensures requests == old(requests) + [ProductsUrl(apiUrl, old(currentPage), productName, status, locationFilter)]
      ensures isLoading
      ensures showFilters == old(showFilters) && locationFilter == old(locationFilter)
      ensures productName == old(productName) && status == old(status)
      ensures currentPage == old(currentPage) && totalPages == old(totalPages) && totalResults == old(totalResults)
      ensures products == old(products) && errorToasts == old(errorToasts)
    {
      BeginFetch(currentPage);
    }

    /** Typing in the name filter. */
    method ProductNameChanged(value: string)
      modifies this
      ensures productName == value
      ensures showFilters == old(showFilters) && locationFilter == old(locationFilter) && status == old(status)
      ensures currentPage == old(currentPage) && totalPages == old(totalPages) && totalResults == old(totalResults)
      ensures products == old(products) && isLoading == old(isLoading)
      ensures requests == old(requests) && errorToasts == old(errorToasts)
    {
      productName := value;
    }

    /** Choosing a status: `"all"`, `"true"` or `"false"`. */
    method StatusChanged(value: string)
      modifies this
      ensures status == value
      ensures showFilters == old(showFilters) && locationFilter == old(locationFilter) && productName == old(productName)
      ensures currentPage == old(currentPage) && totalPages == old(totalPages) && totalResults == old(totalResults)
      ensures products == old(products) && isLoading == old(isLoading)
      ensures requests == old(requests) && errorToasts == old(errorToasts)
    {
      status := value;
    }

    /** Choosing a sales location: `"all"`, `"store"` or `"event"`. */
    method LocationChanged(value: string)
      modifies this
      ensures locationFilter == value
      ensures showFilters == old(showFilters) && productName == old(productName) && status == old(status)
      ensures currentPage == old(currentPage) && totalPages == old(totalPages) && totalResults == old(totalResults)
      ensures products == old(products) && isLoading == old(isLoading)
      ensures requests == old(requests) && errorToasts == old(errorToasts)
    {
      locationFilter := value;
    }

    /** Showing or hiding the filter form. */
    method ToggleFilters()
      modifies this
      ensures showFilters == !old(showFilters)
      ensures locationFilter == old(locationFilter) && productName == old(productName) && status == old(status)
      ensures currentPage == old(currentPage) && totalPages == old(totalPages) && totalResults == old(totalResults)
      ensures products == old(products) && isLoading == old(isLoading)
      ensures requests == old(requests) && errorToasts == old(errorToasts)
    {
      showFilters := !showFilters;
    }

    /** Submitting the filters always asks for page 1; the current page is left as it is until the answer. */
    method FilterSubmit()
      modifies this
      ensures requests == old(requests) + [ProductsUrl(apiUrl, 1, productName, status, locationFilter)]
      ensures isLoading
      ensures showFilters == old(showFilters) && locationFilter == old(locationFilter)
      ensures productName == old(productName) && status == old(status)
      ensures currentPage == old(currentPage) && totalPages == old(totalPages) && totalResults == old(totalResults)
      ensures products == old(products) && errorToasts == old(errorToasts)
    {
      BeginFetch(1);
    }

    /**
     * `setCurrentPage` and the effect on `currentPage`: a different page is
     * stored and fetched; setting the same page again changes nothing.
     */
    method SetCurrentPage(page: int)
      modifies this
      ensures currentPage == page
      ensures page != old(currentPage) ==>
        isLoading && requests == old(requests) + [ProductsUrl(apiUrl, page, productName, status, locationFilter)]
      ensures page == old(currentPage) ==> isLoading == old(isLoading) && requests == old(requests)
      ensures showFilters == old(showFilters) && locationFilter == old(locationFilter)
      ensures productName == old(productName) && status == old(status)
      ensures totalPages == old(totalPages) && totalResults == old(totalResults)
      ensures products == old(products) && errorToasts == old(errorToasts)
    {
      if page != currentPage {
        currentPage := page;
        BeginFetch(page);
      }
    }

    /** A click in the pagination bar: the guard first, then `setCurrentPage`. */
    method PageChange(newPage: int)
      modifies this
      ensures Pagination.RequestPage(old(PaginationProps()), newPage).Some? ==> currentPage == newPage
      ensures Pagination.RequestPage(old(PaginationProps()), newPage).None? ==>
        currentPage == old(currentPage) && requests == old(requests) && isLoading == old(isLoading)
      ensures newPage != old(currentPage) && 1 <= newPage <= old(totalPages) ==>
        isLoading && requests == old(requests) + [ProductsUrl(apiUrl, newPage, productName, status, locationFilter)]
      ensures newPage == old(currentPage) ==> requests == old(requests) && isLoading == old(isLoading)
      ensures showFilters == old(showFilters) && locationFilter == old(locationFilter)
      ensures productName == old(productName) && status == old(status)
      ensures totalPages == old(totalPages) && totalResults == old(totalResults)
      ensures products == old(products) && errorToasts == old(errorToasts)
    {
      match Pagination.RequestPage(PaginationProps(), newPage)
      case Some(page) => SetCurrentPage(page);
      case None =>
    }
  }
}
