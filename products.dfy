/**
 * The product catalogue with its caches: the paginated listing and the
 * single-product lookup behind an in-process dictionary with a time to live,
 * the listing again behind the Redis decorator, a stampede-protected
 * read-through, a batch lookup and the update that invalidates Redis keys.
 *
 * The database is a value: the rows of the `products` table in `ORDER BY id`
 * order. Times are integer milliseconds supplied by the caller.
 */
module Products {
  import opened Wrappers
  import opened Strings
  import opened Decimal
  import opened Json
  import opened KvStore
  import opened RedisCache

  // ---------------------------------------------------------------------
  // The table

  /** A row of `products`; `price` is a whole number in the model. */
  datatype Product = Product(id: int, name: string, description: Option<string>, price: int)

  datatype Db = Db(rows: seq<Product>)

  /** The `SELECT id, name, price` projection of a row. */
  datatype Summary = Summary(id: int, name: string, price: int)

  function Summarize(rows: seq<Product>): (r: seq<Summary>)
    ensures |r| == |rows|
    ensures forall i :: 0 <= i < |rows| ==> r[i] == Summary(rows[i].id, rows[i].name, rows[i].price)
  {
    if rows == [] then [] else [Summary(rows[0].id, rows[0].name, rows[0].price)] + Summarize(rows[1..])
  }

  /**
   * `... ORDER BY id LIMIT ? OFFSET ?` with SQLite's rules: a negative
   * offset counts as zero and a negative limit means no limit.
   */
  function SelectPage(db: Db, limit: int, offset: int): (r: seq<Product>)
    ensures var start := if offset < 0 then 0 else offset;
      && (start >= |db.rows| ==> r == [])
      && (start < |db.rows| ==> start + |r| <= |db.rows| && r == db.rows[start..start + |r|])
      && (start < |db.rows| && limit < 0 ==> start + |r| == |db.rows|)
      && (start < |db.rows| && limit >= 0 ==> |r| == if start + limit <= |db.rows| then limit else |db.rows| - start)
  {
    var start := if offset < 0 then 0 else offset;
    if start >= |db.rows| then []
    else if limit < 0 || start + limit > |db.rows| then db.rows[start..]
    else db.rows[start..start + limit]
  }

  /** `SELECT * FROM products WHERE id = ?`: the first row with that id, if any. */
  function FindById(db: Db, id: int): (r: Option<Product>)
    ensures r.Some? <==> exists i :: 0 <= i < |db.rows| && db.rows[i].id == id
    ensures r.Some? ==> r.value.id == id && r.value in db.rows
    decreases |db.rows|
  {
    if db.rows == [] then None
    else if db.rows[0].id == id then Some(db.rows[0])
    else
      var r := FindById(Db(db.rows[1..]), id);
      assert forall i :: 0 < i < |db.rows| ==> db.rows[i] == db.rows[1..][i - 1];
      r
  }

  // ---------------------------------------------------------------------
  // Binding parameters

  /** Whether an int can be bound as an SQLite INTEGER; binding a wider one raises OverflowError. */
  predicate FitsInt64(i: int) {
    -0x8000_0000_0000_0000 <= i < 0x8000_0000_0000_0000
  }

  /** `SELECT * FROM products WHERE id = ?` with the id bound: an id wider than 64 bits raises before the query runs. */
  function RowById(db: Db, id: int): (r: Result<Option<Product>, Exception>)
    ensures r.Err? <==> !FitsInt64(id)
    ensures r.Err? ==> r.error == OverflowError
    ensures r.Ok? ==> r.value == FindById(db, id)
  {
    if FitsInt64(id) then Ok(FindById(db, id)) else Err(OverflowError)
  }

  // ---------------------------------------------------------------------
  // Pagination arithmetic

  /** Python's `//`: the quotient rounded towards negative infinity. */
  function FloorDiv(a: int, b: int): (q: int)
    requires b != 0
    ensures b > 0 ==> b * q <= a < b * q + b
    ensures b < 0 ==> b * q >= a > b * q + b
  {
    if b > 0 || a % b == 0 then a / b else a / b - 1
  }

  /** The reported page count, `(total + per_page - 1) // per_page`. */
  function PageCount(total: int, perPage: int): (r: int)
    requires perPage != 0
    ensures perPage > 0 && total >= 0 ==> r >= 0
    ensures perPage == 1 ==> r == total
  {
    var q := FloorDiv(total + perPage - 1, perPage);
    if perPage > 0 && q < 0 then MulMonotone(perPage, q, -1); q else q
  }

  /** With a positive page size the page count is the ceiling of total / per_page. */
  lemma PageCountIsCeiling(total: nat, perPage: int)
    requires perPage > 0
    ensures total == 0 ==> PageCount(total, perPage) == 0
    ensures total > 0 ==> (PageCount(total, perPage) - 1) * perPage < total <= PageCount(total, perPage) * perPage
  {
    var q := PageCount(total, perPage);
    assert perPage * q <= total + perPage - 1 < perPage * q + perPage;
    assert (q - 1) * perPage == perPage * q - perPage;
    if total == 0 {
      assert q >= 1 ==> perPage * q >= perPage by { if q >= 1 { MulMonotone(perPage, 1, q); } }
      assert q <= -1 ==> perPage * q <= -perPage by { if q <= -1 { MulMonotone(perPage, q, -1); } }
    }
  }

  lemma MulMonotone(k: int, a: int, b: int)
    requires k > 0 && a <= b
    ensures k * a <= k * b
  {
  }

  /** `offset = (page - 1) * per_page` */
  function PageOffset(page: int, perPage: int): (r: int)
    ensures page == 1 ==> r == 0
    ensures perPage > 0 ==> (r >= 0 <==> page >= 1)
  {
    if perPage > 0 && page >= 1 then MulMonotone(perPage, 0, page - 1); (page - 1) * perPage
    else if perPage > 0 then MulMonotone(perPage, page - 1, -1); (page - 1) * perPage
    else (page - 1) * perPage
  }

  /**
   * For a positive page size and a page number from 1, the page has rows
   * exactly when its number is at most the reported page count.
   */
  lemma {:induction false} PageNonEmptyIffCounted(db: Db, page: int, perPage: int)
    requires perPage > 0 && page >= 1
    ensures SelectPage(db, perPage, PageOffset(page, perPage)) != [] <==> page <= PageCount(|db.rows|, perPage)
  {
    var n := |db.rows|;
    PageCountIsCeiling(n, perPage);
    OffsetBeforeEnd(n, PageCount(n, perPage), page, perPage);
  }

  /** With `pages` the ceiling of n / per_page, a page from 1 starts before row n exactly when its number is at most `pages`. */
  lemma OffsetBeforeEnd(n: nat, pages: int, page: int, perPage: int)
    requires perPage > 0 && page >= 1
    requires n == 0 ==> pages == 0
    requires n > 0 ==> (pages - 1) * perPage < n <= pages * perPage
    ensures (page - 1) * perPage < n <==> page <= pages
  {
    if page <= pages {
      MulMonotone(perPage, page - 1, pages - 1);
    } else {
      MulMonotone(perPage, pages, page - 1);
    }
  }

  /** Page numbers below 1 give a negative offset, which SQLite reads as zero: they list the first page. */
  lemma LowPagesListFirstPage(db: Db, page: int, perPage: int)
    requires page < 1 && perPage > 0
    ensures SelectPage(db, perPage, PageOffset(page, perPage)) == SelectPage(db, perPage, 0)
  {
    MulMonotone(perPage, page - 1, 0);
  }

  // ---------------------------------------------------------------------
  // Cache keys

  const PagePrefix: string := "products_page_"
  const ProductPrefix: string := "product_"
  const ListPrefix: string := "products_list"

  /** `products_page_{page}_per_page_{per_page}` */
  function PageKey(page: int, perPage: int): (k: string)
    ensures HasPrefix(k, PagePrefix)
  {
    PrefixOfConcat(PagePrefix, IntToString(page) + "_per_page_" + IntToString(perPage));
    PagePrefix + (IntToString(page) + "_per_page_" + IntToString(perPage))
  }

  /** `product_{id}` */
  function ProductKey(id: int): (k: string)
    ensures HasPrefix(k, ProductPrefix)
  {
    PrefixOfConcat(ProductPrefix, IntToString(id));
    ProductPrefix + IntToString(id)
  }

  /** `{key}:lock` */
  function LockKey(key: string): (k: string)
    ensures k != key && HasPrefix(k, key)
  {
    PrefixOfConcat(key, ":lock");
    key + ":lock"
  }

  /** Distinct pages (or page sizes) never share an entry of the in-process cache. */
  lemma PageKeyInjective(a: int, b: int, c: int, d: int)
    requires PageKey(a, b) == PageKey(c, d)
    ensures a == c && b == d
  {
    var s := "_per_page_" + IntToString(b);
    var t := "_per_page_" + IntToString(d);
    PageKeyAfterPrefix(a, b);
    PageKeyAfterPrefix(c, d);
    IntThenNonDigit(a, s, c, t);
    DropPrefix("_per_page_", IntToString(b));
    DropPrefix("_per_page_", IntToString(d));
    IntToStringInjective(b, d);
  }

  lemma PageKeyAfterPrefix(page: int, perPage: int)
    ensures PageKey(page, perPage)[|PagePrefix|..] == IntToString(page) + ("_per_page_" + IntToString(perPage))
  {
    var x := IntToString(page) + ("_per_page_" + IntToString(perPage));
    assert PageKey(page, perPage) == PagePrefix + x;
    DropPrefix(PagePrefix, x);
  }

  /** Distinct products never share a cache key. */
  lemma ProductKeyInjective(a: int, b: int)
    requires ProductKey(a) == ProductKey(b)
    ensures a == b
  {
    assert IntToString(a) == ProductKey(a)[|ProductPrefix|..];
    assert IntToString(b) == ProductKey(b)[|ProductPrefix|..];
    IntToStringInjective(a, b);
  }

  /** A page key is never a product key: they differ at the eighth character. */
  lemma PageKeyNotProductKey(page: int, perPage: int, id: int)
    ensures PageKey(page, perPage) != ProductKey(id)
  {
    assert PageKey(page, perPage)[7] == 's';
    assert ProductKey(id)[7] == '_';
  }

  /** A product key never looks like a key of the decorated listing. */
  lemma ProductKeyNotListKey(id: int)
    ensures !HasPrefix(ProductKey(id), ListPrefix + ":")
  {
    assert ProductKey(id)[7] == '_';
    assert (ListPrefix + ":")[7] == 's';
  }

  // ---------------------------------------------------------------------
  // The in-process cache (`_cache`)

  const PageTtlMillis: int := 30 * MillisPerSecond
  const ProductTtlMillis: int := 60 * MillisPerSecond

  datatype Pagination = Pagination(page: int, perPage: int, total: int, pages: int)

  /** What `get_products` returns, without its measured query time. */
  datatype PageResult = PageResult(products: seq<Summary>, pagination: Pagination)

  /** What `get_product_by_id` returns, without its measured query time. */
  datatype ProductResult = ProductResult(product: Product)

  datatype CachedData = PageData(pageResult: PageResult) | ProductData(productResult: ProductResult)

  datatype LocalEntry = LocalEntry(data: CachedData, timestamp: int)

  /**
   * The listing query: the page's rows and the pagination block. Binding a
   * page size or an offset wider than 64 bits raises; so does `//` by a
   * zero page size, after the queries.
   */
  function QueryPage(db: Db, page: int, perPage: int): (r: Result<PageResult, Exception>)
    ensures !FitsInt64(perPage) || !FitsInt64(PageOffset(page, perPage)) ==> r == Err(OverflowError)
    ensures FitsInt64(perPage) && FitsInt64(PageOffset(page, perPage)) ==> (r.Err? <==> perPage == 0)
    ensures r.Err? ==> r.error == OverflowError || r.error == ZeroDivisionError
    ensures r.Ok? ==> r.value.pagination.page == page && r.value.pagination.perPage == perPage
    ensures r.Ok? ==> r.value.pagination.total == |db.rows|
    ensures r.Ok? && perPage > 0 ==> |r.value.products| <= perPage
  {
    var rows := SelectPage(db, perPage, PageOffset(page, perPage));
    var total := |db.rows|;
    if !FitsInt64(perPage) || !FitsInt64(PageOffset(page, perPage)) then Err(OverflowError)
    else if perPage == 0 then Err(ZeroDivisionError)
    else Ok(PageResult(Summarize(rows), Pagination(page, perPage, total, PageCount(total, perPage))))
  }

  /**
   * What a listed page holds, for a positive page size and a page number
   * from 1: the summaries of the rows from offset (page - 1) * per_page on,
   * as many as fit on the page, and some row exactly when the page number
   * is at most the reported page count.
   */
  lemma QueryPageLists(db: Db, page: int, perPage: int)
    requires perPage > 0 && page >= 1 && QueryPage(db, page, perPage).Ok?
    ensures var p := QueryPage(db, page, perPage).value;
      var offset := (page - 1) * perPage;
      && |p.products| == (if offset + perPage <= |db.rows| then perPage else if offset < |db.rows| then |db.rows| - offset else 0)
      && (forall i :: 0 <= i < |p.products| ==> p.products[i] == Summary(db.rows[offset + i].id, db.rows[offset + i].name, db.rows[offset + i].price))
      && (p.products != [] <==> page <= p.pagination.pages)
  {
    PageNonEmptyIffCounted(db, page, perPage);
  }

  /** The data a key of `_cache` can hold: the result of the request the key names. */
  predicate Describes(key: string, data: CachedData) {
    match data
    case PageData(p) => key == PageKey(p.pagination.page, p.pagination.perPage)
    case ProductData(p) => key == ProductKey(p.product.id)
  }

  /** A read of `_cache` is a hit when the key is there and younger than the time to live. */
  predicate FreshAt(entries: map<string, LocalEntry>, key: string, now: int, ttl: int) {
    key in entries && now - entries[key].timestamp < ttl
  }

  class LocalCache {
    var entries: map<string, LocalEntry>

    ghost predicate Valid()
      reads this
    {
      forall k :: k in entries ==> Describes(k, entries[k].data)
    }

    constructor ()
      ensures Valid() && entries == map[]
    {
      entries := map[];
    }

    /**
     * `get_products`: answer a fresh cached page without querying; otherwise
     * query, and with caching on store the new result stamped `now`.
     * `queried` tells whether the database was read.
     */
    method GetProducts(db: Db, page: int, perPage: int, useCache: bool, now: int)
      returns (r: Result<PageResult, Exception>, queried: bool)
      requires Valid()
      modifies this
      ensures Valid()
      ensures var key := PageKey(page, perPage);
        if useCache && FreshAt(old(entries), key, now, PageTtlMillis) then
          && !queried && entries == old(entries)
          && old(entries)[key].data.PageData? && r == Ok(old(entries)[key].data.pageResult)
        else
          && queried && r == QueryPage(db, page, perPage)
          && entries == if useCache && r.Ok? then old(entries)[key := LocalEntry(PageData(r.value), now)] else old(entries)
      ensures r.Ok? ==> r.value.pagination.page == page && r.value.pagination.perPage == perPage
      ensures !useCache ==> entries == old(entries)
    {
      var key := PageKey(page, perPage);
      if useCache && key in entries {
        var entry := entries[key];
        if now - entry.timestamp < PageTtlMillis {
          match entry.data
          case PageData(p) =>
            PageKeyInjective(page, perPage, p.pagination.page, p.pagination.perPage);
            return Ok(p), false;
          case ProductData(p) =>
            PageKeyNotProductKey(page, perPage, p.product.id);
            assert false;
        }
      }
      r := QueryPage(db, page, perPage);
      queried := true;
      if useCache && r.Ok? {
        entries := entries[key := LocalEntry(PageData(r.value), now)];
      }
    }

    /**
     * `get_product_by_id`: answer a fresh cached product without querying;
     * otherwise look the row up. A missing product answers None and is not
     * cached; an id wider than 64 bits raises when it is bound.
     */
    method GetProductById(db: Db, id: int, useCache: bool, now: int)
      returns (r: Result<Option<ProductResult>, Exception>, queried: bool)
      requires Valid()
      modifies this
      ensures Valid()
      ensures var key := ProductKey(id);
        if useCache && FreshAt(old(entries), key, now, ProductTtlMillis) then
          && !queried && entries == old(entries)
          && old(entries)[key].data.ProductData? && r == Ok(Some(old(entries)[key].data.productResult))
        else
          && queried
          && (!FitsInt64(id) ==> r == Err(OverflowError) && entries == old(entries))
          && (FitsInt64(id) && FindById(db, id).None? ==> r == Ok(None) && entries == old(entries))
          && (FitsInt64(id) && FindById(db, id).Some? ==>
                && r == Ok(Some(ProductResult(FindById(db, id).value)))
                && entries == if useCache then old(entries)[key := LocalEntry(ProductData(r.value.value), now)] else old(entries))
      ensures r.Ok? && r.value.Some? ==> r.value.value.product.id == id
      ensures !useCache ==> entries == old(entries)
    {
      var key := ProductKey(id);
      if useCache && key in entries {
        var entry := entries[key];
        if now - entry.timestamp < ProductTtlMillis {
          match entry.data
          case ProductData(p) =>
            ProductKeyInjective(id, p.product.id);
            return Ok(Some(p)), false;
          case PageData(p) =>
            PageKeyNotProductKey(p.pagination.page, p.pagination.perPage, id);
            assert false;
        }
      }
      queried := true;
      var row := RowById(db, id);
      if row.Err? {
        return Err(row.error), queried;
      }
      if row.value.None? {
        return Ok(None), queried;
      }
      var result := ProductResult(row.value.value);
      r := Ok(Some(result));
      if useCache {
        entries := entries[key := LocalEntry(ProductData(result), now)];
      }
    }
  }

  // ---------------------------------------------------------------------
  // JSON forms of rows and results

  /** The row as the dict `dict(row)` gives for `SELECT *` (the creation time is not modelled). */
  function ProductJson(p: Product): Json {
    Obj([("id", Int(p.id)), ("name", Str(p.name)),
         ("description", if p.description.Some? then Str(p.description.value) else Null),
         ("price", Int(p.price))])
  }

  function SummaryJson(s: Summary): Json {
    Obj([("id", Int(s.id)), ("name", Str(s.name)), ("price", Int(s.price))])
  }

  // ---------------------------------------------------------------------
  // The listing behind the Redis decorator (`get_products_redis`)

  const ListTtlSeconds: int := 30

  /** A number as Python's arithmetic sees it: an int, or a bool as 0 or 1. */
  function AsNumber(v: PyValue): Option<int> {
    match v
    case PyInt(i) => Some(i)
    case PyBool(b) => Some(if b then 1 else 0)
    case _ => None
  }

  /** How many of the keyword arguments carry the name. */
  function Occurrences(kwargs: seq<(string, PyValue)>, name: string): nat {
    if kwargs == [] then 0 else (if kwargs[0].0 == name then 1 else 0) + Occurrences(kwargs[1..], name)
  }

  /** The value of the first keyword argument with the name, if any. */
  function KeywordValue(kwargs: seq<(string, PyValue)>, name: string): Option<PyValue> {
    if kwargs == [] then None
    else if kwargs[0].0 == name then Some(kwargs[0].1)
    else KeywordValue(kwargs[1..], name)
  }

  /**
   * Match keyword arguments against `page` and `per_page`, as a Python call
   * does: the call binds when every name is one of the two and neither is
   * given twice (a positional value counts as given); each parameter then
   * holds its positional value or its keyword's value.
   */
  function BindKeywords(kwargs: seq<(string, PyValue)>, page: Option<PyValue>, perPage: Option<PyValue>)
    : (r: Result<(Option<PyValue>, Option<PyValue>), Exception>)
    ensures r.Ok? <==>
      && (forall i :: 0 <= i < |kwargs| ==> kwargs[i].0 == "page" || kwargs[i].0 == "per_page")
      && Occurrences(kwargs, "page") <= (if page.None? then 1 else 0)
      && Occurrences(kwargs, "per_page") <= (if perPage.None? then 1 else 0)
    ensures r.Err? ==> r.error == TypeError
    ensures r.Ok? ==> r.value == (if page.Some? then page else KeywordValue(kwargs, "page"),
                                  if perPage.Some? then perPage else KeywordValue(kwargs, "per_page"))
  {
    if kwargs == [] then Ok((page, perPage))
    else
      var (name, v) := kwargs[0];
      assert forall i :: 0 < i < |kwargs| ==> kwargs[i] == kwargs[1..][i - 1];
      if name == "page" && page.None? then BindKeywords(kwargs[1..], Some(v), perPage)
      else if name == "per_page" && perPage.None? then BindKeywords(kwargs[1..], page, Some(v))
      else Err(TypeError)  // an unexpected keyword, or a second value for a parameter
  }

  /** The parameters of `get_products_redis(page=1, per_page=10)` bound from a call. */
  function BindListingArgs(args: seq<PyValue>, kwargs: seq<(string, PyValue)>): (r: Result<(PyValue, PyValue), Exception>)
    ensures r.Err? ==> r.error == TypeError
    ensures |args| > 2 ==> r.Err?
    ensures r.Ok? && |args| >= 1 ==> r.value.0 == args[0]
    ensures r.Ok? && |args| == 2 ==> r.value.1 == args[1]
    ensures args == [] && kwargs == [] ==> r == Ok((PyInt(1), PyInt(10)))
  {
    if |args| > 2 then Err(TypeError)
    else
      var page := if |args| >= 1 then Some(args[0]) else None;
      var perPage := if |args| == 2 then Some(args[1]) else None;
      match BindKeywords(kwargs, page, perPage)
      case Err(e) => Err(e)
      case Ok((p, pp)) =>
        Ok((if p.Some? then p.value else PyInt(1), if pp.Some? then pp.value else PyInt(10)))
  }

  /** A page number or size echoed in the JSON result, as `json.dumps` writes an int or a bool. */
  function NumberJson(v: PyValue): Json {
    if v.PyBool? then Bool(v.b) else Int(if v.PyInt? then v.i else 0)
  }

  /** The listing as `json.dumps` sees it, with `page` and `per_page` echoed as given. */
  function ListingJson(p: PageResult, page: Json, perPage: Json): Json {
    Obj([("products", Arr(seq(|p.products|, i requires 0 <= i < |p.products| => SummaryJson(p.products[i])))),
         ("pagination", Obj([("page", page), ("per_page", perPage),
                             ("total", Int(p.pagination.total)), ("pages", Int(p.pagination.pages))]))])
  }

  /** `get_products`'s result, without its query time, as JSON. */
  function PageResultJson(p: PageResult): Json {
    ListingJson(p, Int(p.pagination.page), Int(p.pagination.perPage))
  }

  /** Python's `n * text`: the text repeated n times, empty for n <= 0. */
  function Repeat(text: string, n: int): string
    decreases n
  {
    if n <= 0 then "" else text + Repeat(text, n - 1)
  }

  /** A text without its leading sign, if it has one. */
  function Unsigned(t: string): string {
    if t != [] && (t[0] == '+' || t[0] == '-') then t[1..] else t
  }

  /** Whether SQLite reads a text bound to LIMIT or OFFSET as an integer: an optional sign, then digits, within 64 bits. */
  predicate ReadsAsInteger(t: string) {
    && Unsigned(t) != [] && AllDigits(Unsigned(t))
    && FitsInt64(if t[0] == '-' then -(DigitsToNat(Unsigned(t)) as int) else DigitsToNat(Unsigned(t)))
  }

  /** Whether SQLite reads the text as the integer 0 ("0", "00", "+0", "-0", ...). */
  predicate ReadsAsZero(t: string) {
    ReadsAsInteger(t) && DigitsToNat(Unsigned(t)) == 0
  }

  /**
   * The body of `get_products_redis` once its parameters are bound. The
   * operands decide what happens: `page - 1` needs a number; a number times
   * a str page size repeats the text, which SQLite must read as the LIMIT
   * and then, unless the LIMIT is 0, the OFFSET integer before
   * `total + per_page` fails; times None it raises. Two numbers run the
   * listing query.
   */
  function ListingQuery(db: Db, pageArg: PyValue, perPageArg: PyValue): (r: Result<Json, Exception>)
    ensures AsNumber(pageArg).None? || perPageArg.PyNone? ==> r == Err(TypeError)
    ensures perPageArg.PyStr? ==> r.Err? && (r.error == IntegrityError || r.error == TypeError)
    ensures AsNumber(pageArg).Some? && perPageArg.PyStr? ==>
      (r == Err(TypeError) <==>
         ReadsAsInteger(perPageArg.s)
         && (ReadsAsZero(perPageArg.s) || ReadsAsInteger(Repeat(perPageArg.s, AsNumber(pageArg).value - 1))))
    ensures r.Ok? ==> AsNumber(pageArg).Some? && AsNumber(perPageArg).Some?
    ensures AsNumber(pageArg).Some? && AsNumber(perPageArg).Some? ==>
      var q := QueryPage(db, AsNumber(pageArg).value, AsNumber(perPageArg).value);
      (r.Err? <==> q.Err?) && (r.Err? ==> r.error == q.error)
  {
    match AsNumber(pageArg)
    case None => Err(TypeError)
    case Some(page) =>
      match perPageArg
      case PyNone => Err(TypeError)
      case PyStr(text) =>
        if !ReadsAsInteger(text) then Err(IntegrityError)
        else if ReadsAsZero(text) then Err(TypeError)
        else if !ReadsAsInteger(Repeat(text, page - 1)) then Err(IntegrityError)
        else Err(TypeError)
      case _ =>
        match QueryPage(db, page, AsNumber(perPageArg).value)
        case Err(e) => Err(e)
        case Ok(p) => Ok(ListingJson(p, NumberJson(pageArg), NumberJson(perPageArg)))
  }

  /** The undecorated body of `get_products_redis`: bind the call's arguments, then list. */
  function ListingBody(db: Db, args: seq<PyValue>, kwargs: seq<(string, PyValue)>): (r: Result<Json, Exception>)
    ensures r.Err? ==>
      r.error == TypeError || r.error == ZeroDivisionError || r.error == OverflowError || r.error == IntegrityError
  {
    match BindListingArgs(args, kwargs)
    case Err(e) => Err(e)
    case Ok((pageArg, perPageArg)) => ListingQuery(db, pageArg, perPageArg)
  }

  /**
   * With int arguments, positional or by keyword, the decorated listing
   * answers the JSON of the in-process listing's query, errors included.
   */
  lemma ListingMatchesLocal(db: Db, page: int, perPage: int)
    ensures var expected := match QueryPage(db, page, perPage)
                            case Ok(p) => Ok(PageResultJson(p))
                            case Err(e) => Err(e);
      && ListingBody(db, [PyInt(page), PyInt(perPage)], []) == expected
      && ListingBody(db, [PyInt(page)], [("per_page", PyInt(perPage))]) == expected
      && ListingBody(db, [], [("page", PyInt(page)), ("per_page", PyInt(perPage))]) == expected
  {
  }

  /** The spellings of one listing call answer alike, but each is cached under its own key. */
  lemma SpellingsHaveOwnKeys(page: int, perPage: int)
    ensures CacheKey(ListPrefix, [PyInt(page), PyInt(perPage)], []) != CacheKey(ListPrefix, [PyInt(page)], [("per_page", PyInt(perPage))])
    ensures CacheKey(ListPrefix, [PyInt(page), PyInt(perPage)], []) != CacheKey(ListPrefix, [], [("page", PyInt(page)), ("per_page", PyInt(perPage))])
    ensures CacheKey(ListPrefix, [PyInt(page)], [("per_page", PyInt(perPage))]) != CacheKey(ListPrefix, [], [("page", PyInt(page)), ("per_page", PyInt(perPage))])
  {
    var a1, k1 := [PyInt(page), PyInt(perPage)], [];
    var a2, k2 := [PyInt(page)], [("per_page", PyInt(perPage))];
    var a3, k3 := [], [("page", PyInt(page)), ("per_page", PyInt(perPage))];
    if CacheKey(ListPrefix, a1, k1) == CacheKey(ListPrefix, a2, k2) {
      CacheKeyInjective(ListPrefix, a1, k1, a2, k2);
      assert false;
    }
    if CacheKey(ListPrefix, a1, k1) == CacheKey(ListPrefix, a3, k3) {
      CacheKeyInjective(ListPrefix, a1, k1, a3, k3);
      assert false;
    }
    if CacheKey(ListPrefix, a2, k2) == CacheKey(ListPrefix, a3, k3) {
      CacheKeyInjective(ListPrefix, a2, k2, a3, k3);
      assert false;
    }
  }

  /**
   * On page 1 a str page size makes the offset the empty text, which SQLite
   * refuses, unless the size reads as 0: a LIMIT of 0 ends the query before
   * the offset is read, and `total + per_page` raises instead.
   */
  lemma FirstPageTextSizeRefused(db: Db, text: string)
    ensures ListingBody(db, [PyInt(1), PyStr(text)], []) ==
      if ReadsAsZero(text) then Err(TypeError) else Err(IntegrityError)
  {
    assert Repeat(text, 0) == "";
  }

  /**
   * `get_products_redis` through `redis_cache('products_list', ttl=30)`.
   * `calls` is not part of the Python code: it counts the runs of the
   * listing body, so that the contract can say when the body runs.
   */
  method GetProductsRedis(store: Store, db: Db, args: seq<PyValue>, kwargs: seq<(string, PyValue)>)
    returns (r: Result<Json, Exception>, calls: nat)
    modifies store
    ensures store.clock == old(store.clock)
    ensures var key := CacheKey(ListPrefix, args, kwargs);
      match Lookup(old(store.entries), old(store.clock), key)
      case Some(text) => calls == 0 && r == Loads(text) && store.entries == old(store.entries)
      case None =>
        && calls == 1 && r == MissResult(ListingBody(db, args, kwargs), ListTtlSeconds, store.clock)
        && store.entries == AfterMiss(old(store.entries), store.clock, key, ListTtlSeconds, ListingBody(db, args, kwargs))
  {
    var body: PyFunction := (a, k) => ListingBody(db, a, k);
    assert body(args, kwargs) == ListingBody(db, args, kwargs);
    r, calls := CachedCall(store, ListPrefix, ListTtlSeconds, body, args, kwargs);
  }

  // ---------------------------------------------------------------------
  // Stampede protection

  const LockWaitMillis: nat := 100

  /**
   * `get_with_stampede_protection`: a hit answers the decoded text; a miss
   * takes `{key}:lock` with SETNX (then EXPIRE), runs the producer, stores its
   * encoded result with SETEX and always deletes the lock; a held lock means
   * waiting 100 ms and starting over, at most `retries` more times.
   * The EXPIRE runs before the `try`: when the server refuses the lock
   * timeout, the call raises with the lock held and no expiry on it, and
   * every later call for the key waits until it gives up.
   * `calls` is not part of the Python code: it counts the producer's runs.
   */
  method GetWithStampedeProtection(store: Store, key: string, ttl: int, producer: () -> Result<Json, Exception>,
                                   lockTimeout: int, retries: nat)
    returns (r: Result<Json, Exception>, calls: nat)
    modifies store
    decreases retries
    ensures calls <= 1
    ensures store.clock >= old(store.clock)
    ensures Lookup(old(store.entries), old(store.clock), key).Some? ==>
      && calls == 0 && store.entries == old(store.entries) && store.clock == old(store.clock)
      && r == Loads(Lookup(old(store.entries), old(store.clock), key).value)
    ensures calls == 0 && r != Err(ResponseError) ==> store.entries == old(store.entries)
    ensures calls == 0 && r != Err(LockTimeout) && r != Err(ResponseError) ==>
      Lookup(store.entries, store.clock, key).Some? && r == Loads(Lookup(store.entries, store.clock, key).value)
    ensures calls == 0 && r == Err(ResponseError) ==>
      && !ExpireAccepts(lockTimeout, store.clock)
      && store.entries == old(store.entries)[LockKey(key) := Entry("locked", None)]
    ensures calls == 1 ==>
      && r == MissResult(producer(), ttl, store.clock)
      && LockKey(key) !in store.entries
      && SameAt(store.entries, AfterMiss(old(store.entries), store.clock, key, ttl, producer()), key)
      && (forall k :: k != key && k != LockKey(key) ==> SameAt(store.entries, old(store.entries), k))
    ensures Lookup(old(store.entries), old(store.clock), key).None? && LockKey(key) in old(store.entries)
            && old(store.entries)[LockKey(key)].expiresAt.None? ==>
      calls == 0 && r == Err(LockTimeout) && store.entries == old(store.entries)
  {
    var cached := store.Get(key);
    if cached.Some? {
      return Loads(cached.value), 0;
    }
    var lock := LockKey(key);
    var acquired := store.SetNx(lock, "locked");
    if acquired {
      ghost var locked := store.entries;
      r, calls := ProduceUnderLock(store, key, ttl, producer, lockTimeout);
      if calls == 1 {
        forall k | k != key && k != lock
          ensures SameAt(store.entries, old(store.entries), k)
        {
          assert SameAt(store.entries, locked, k);
        }
      }
    } else if retries == 0 {
      return Err(LockTimeout), 0;
    } else {
      ghost var clock0 := store.clock;
      store.Advance(LockWaitMillis);
      ExpiredStaysExpired(store.entries, key, clock0, store.clock);
      r, calls := GetWithStampedeProtection(store, key, ttl, producer, lockTimeout, retries - 1);
    }
  }

  /**
   * The lock holder's part: EXPIRE the lock, then, inside the `try`, run the
   * producer and SETEX its result, and in the `finally` DEL the lock. A
   * refused EXPIRE raises before the `try`, so the lock stays.
   */
  method ProduceUnderLock(store: Store, key: string, ttl: int, producer: () -> Result<Json, Exception>, lockTimeout: int)
    returns (r: Result<Json, Exception>, calls: nat)
    modifies store
    ensures store.clock == old(store.clock)
    ensures calls == (if ExpireAccepts(lockTimeout, store.clock) then 1 else 0)
    ensures calls == 0 ==> r == Err(ResponseError) && store.entries == old(store.entries)
    ensures calls == 1 ==>
      && r == MissResult(producer(), ttl, store.clock)
      && LockKey(key) !in store.entries
      && SameAt(store.entries, AfterMiss(old(store.entries), store.clock, key, ttl, producer()), key)
      && (forall k :: k != key && k != LockKey(key) ==> SameAt(store.entries, old(store.entries), k))
  {
    var lock := LockKey(key);
    var expired := store.Expire(lock, lockTimeout);
    if expired.Err? {
      return Err(expired.error), 0;
    }
    calls := 1;
    ghost var locked := store.entries;
    assert SameAt(locked, old(store.entries), key);
    r := StoreResult(store, key, ttl, producer());
    var _ := store.Delete({lock});
  }

  // ---------------------------------------------------------------------
  // Batch lookup (`get_multiple_products`)

  /** What the pipelined GETs answer: the live cached text of each id's key, in the order of the ids. */
  function Snapshot(entries: map<string, Entry>, now: int, ids: seq<int>): (cs: seq<Option<string>>)
    ensures |cs| == |ids|
  {
    seq(|ids|, i requires 0 <= i < |ids| => Lookup(entries, now, ProductKey(ids[i])))
  }

  /** A batch answer once `json.loads` has been applied to each hit. */
  type Decoded = Option<Result<Json, Exception>>

  function DecodeAll(cs: seq<Option<string>>): (ds: seq<Decoded>)
    ensures |ds| == |cs|
  {
    seq(|cs|, i requires 0 <= i < |cs| => if cs[i].Some? then Some(Loads(cs[i].value)) else None)
  }

  /** The time to live of a row written back by the batch, in seconds. */
  const BatchTtlSeconds: int := 60

  /**
   * What one id adds to the answer: its decoded cached value, or its row
   * when it exists, or nothing. Writing a found row back raises when the
   * server refuses the SETEX (`writable` is false).
   */
  function Contribution(db: Db, id: int, cached: Decoded, writable: bool): (r: Result<seq<Json>, Exception>)
    ensures r.Ok? ==> |r.value| <= 1
    ensures cached.None? ==> (r.Ok? <==> writable || FindById(db, id).None?)
    ensures cached.None? && r.Ok? ==> (r.value == [] <==> FindById(db, id).None?)
    ensures cached.None? && r.Err? ==> r.error == ResponseError
  {
    match cached
    case Some(Ok(v)) => Ok([v])
    case Some(Err(e)) => Err(e)
    case None =>
      (match FindById(db, id)
       case Some(p) => if writable then Ok([ProductJson(p)]) else Err(ResponseError)
       case None => Ok([]))
  }

  function Then(done: seq<Json>, rest: Result<seq<Json>, Exception>): Result<seq<Json>, Exception> {
    match rest
    case Ok(more) => Ok(done + more)
    case Err(e) => Err(e)
  }

  lemma ThenNothing(rest: Result<seq<Json>, Exception>)
    ensures Then([], rest) == rest
  {
    if rest.Ok? {
      assert [] + rest.value == rest.value;
    }
  }

  lemma ThenThen(done: seq<Json>, next: seq<Json>, rest: Result<seq<Json>, Exception>)
    ensures Then(done, Then(next, rest)) == Then(done + next, rest)
  {
    if rest.Ok? {
      assert done + (next + rest.value) == (done + next) + rest.value;
    }
  }

  /** The answer of the batch for ids whose cached texts were `cs`: contributions in order, or the first error. */
  function Gather(db: Db, ids: seq<int>, cs: seq<Decoded>, writable: bool): Result<seq<Json>, Exception>
    requires |cs| == |ids|
  {
    if ids == [] then Ok([])
    else
      match Contribution(db, ids[0], cs[0], writable)
      case Err(e) => Err(e)
      case Ok(first) => Then(first, Gather(db, ids[1..], cs[1..], writable))
  }

  /** The write one id causes: a miss whose row exists is stored with `expiry` when SETEX accepts; anything else writes nothing. */
  function WriteBack(entries: map<string, Entry>, db: Db, id: int, cached: Decoded, writable: bool, expiry: int)
    : (m: map<string, Entry>)
    ensures !(cached.None? && FindById(db, id).Some? && writable) ==> m == entries
  {
    if cached.None? && FindById(db, id).Some? && writable then
      entries[ProductKey(id) := Entry(Encode(ProductJson(FindById(db, id).value)), Some(expiry))]
    else entries
  }

  /** The store after the batch: the write-backs of the ids in order, up to the first error. */
  function Filled(entries: map<string, Entry>, db: Db, ids: seq<int>, cs: seq<Decoded>, writable: bool, expiry: int)
    : map<string, Entry>
    requires |cs| == |ids|
    decreases |ids|
  {
    if ids == [] then entries
    else if Contribution(db, ids[0], cs[0], writable).Err? then entries
    else Filled(WriteBack(entries, db, ids[0], cs[0], writable, expiry), db, ids[1..], cs[1..], writable, expiry)
  }

  /** No id of the batch fails: every hit decodes, and every found miss can be written back. */
  predicate NoFailure(db: Db, ids: seq<int>, cs: seq<Decoded>, writable: bool)
    requires |cs| == |ids|
  {
    forall j :: 0 <= j < |ids| ==> Contribution(db, ids[j], cs[j], writable).Ok?
  }

  /** The batch answers exactly when no id fails, and then with at most one product per id. */
  lemma {:induction false} GatherOk(db: Db, ids: seq<int>, cs: seq<Decoded>, writable: bool)
    requires |cs| == |ids|
    ensures Gather(db, ids, cs, writable).Ok? <==> NoFailure(db, ids, cs, writable)
    ensures Gather(db, ids, cs, writable).Ok? ==> |Gather(db, ids, cs, writable).value| <= |ids|
  {
    if ids != [] {
      GatherOk(db, ids[1..], cs[1..], writable);
      assert forall j :: 0 < j < |ids| ==> ids[j] == ids[1..][j - 1] && cs[j] == cs[1..][j - 1];
    }
  }

  /**
   * One id's write-back touches only that id's key, and a stored miss leaves
   * there a text that `json.loads` reads back as the row.
   */
  lemma WriteBackStores(entries: map<string, Entry>, db: Db, id: int, cached: Decoded, writable: bool, expiry: int)
    ensures var m := WriteBack(entries, db, id, cached, writable, expiry);
      && (forall k :: k != ProductKey(id) ==> SameAt(entries, m, k))
      && (cached.None? && FindById(db, id).Some? && writable ==>
            ProductKey(id) in m && Loads(m[ProductKey(id)].value) == Ok(ProductJson(FindById(db, id).value)))
  {
    if cached.None? && FindById(db, id).Some? && writable {
      LoadsDumps(ProductJson(FindById(db, id).value));
    }
  }

  /** The batch writes no key but the product keys of its ids. */
  lemma {:induction false} FilledTouchesOnlyBatchKeys(entries: map<string, Entry>, db: Db, ids: seq<int>, cs: seq<Decoded>,
                                                      writable: bool, expiry: int, k: string)
    requires |cs| == |ids| && !BatchKey(ids, k)
    ensures SameAt(entries, Filled(entries, db, ids, cs, writable, expiry), k)
    decreases |ids|
  {
    if ids != [] && Contribution(db, ids[0], cs[0], writable).Ok? {
      assert ProductKey(ids[0]) != k;
      assert forall j :: 0 <= j < |ids[1..]| ==> ids[1..][j] == ids[j + 1];
      var next := WriteBack(entries, db, ids[0], cs[0], writable, expiry);
      FilledTouchesOnlyBatchKeys(next, db, ids[1..], cs[1..], writable, expiry, k);
    }
  }

  lemma GatherStep(db: Db, ids: seq<int>, cs: seq<Decoded>, writable: bool, i: nat)
    requires i < |ids| == |cs|
    ensures Gather(db, ids[i..], cs[i..], writable) ==
      match Contribution(db, ids[i], cs[i], writable)
      case Err(e) => Err(e)
      case Ok(first) => Then(first, Gather(db, ids[i + 1..], cs[i + 1..], writable))
  {
    assert ids[i..][1..] == ids[i + 1..] && cs[i..][1..] == cs[i + 1..];
  }

  lemma FilledStep(entries: map<string, Entry>, db: Db, ids: seq<int>, cs: seq<Decoded>, writable: bool, expiry: int, i: nat)
    requires i < |ids| == |cs|
    ensures Filled(entries, db, ids[i..], cs[i..], writable, expiry) ==
      if Contribution(db, ids[i], cs[i], writable).Err? then entries
      else Filled(WriteBack(entries, db, ids[i], cs[i], writable, expiry), db, ids[i + 1..], cs[i + 1..], writable, expiry)
  {
    assert ids[i..][1..] == ids[i + 1..] && cs[i..][1..] == cs[i + 1..];
  }

  /** One step of the batch's answer: a contribution either ends it with an error or joins the done part. */
  lemma GatherAdvance(db: Db, ids: seq<int>, cs: seq<Decoded>, writable: bool, i: nat, done: seq<Json>,
                      c: Result<seq<Json>, Exception>)
    requires i < |ids| == |cs|
    requires Gather(db, ids, cs, writable) == Then(done, Gather(db, ids[i..], cs[i..], writable))
    requires c == Contribution(db, ids[i], cs[i], writable)
    ensures c.Err? ==> Gather(db, ids, cs, writable) == Err(c.error)
    ensures c.Ok? ==> Gather(db, ids, cs, writable) == Then(done + c.value, Gather(db, ids[i + 1..], cs[i + 1..], writable))
  {
    GatherStep(db, ids, cs, writable, i);
    if c.Ok? {
      ThenThen(done, c.value, Gather(db, ids[i + 1..], cs[i + 1..], writable));
    }
  }

  /** One step of the batch's writes: the store after the id's write-back continues to the same final store. */
  lemma FilledAdvance(start: map<string, Entry>, before: map<string, Entry>, after: map<string, Entry>,
                      db: Db, ids: seq<int>, cs: seq<Decoded>, writable: bool, expiry: int, i: nat)
    requires i < |ids| == |cs|
    requires Filled(start, db, ids, cs, writable, expiry) == Filled(before, db, ids[i..], cs[i..], writable, expiry)
    requires after == WriteBack(before, db, ids[i], cs[i], writable, expiry)
    ensures Contribution(db, ids[i], cs[i], writable).Err? ==>
      after == before && Filled(start, db, ids, cs, writable, expiry) == before
    ensures Contribution(db, ids[i], cs[i], writable).Ok? ==>
      Filled(start, db, ids, cs, writable, expiry) == Filled(after, db, ids[i + 1..], cs[i + 1..], writable, expiry)
  {
    FilledStep(before, db, ids, cs, writable, expiry, i);
  }

  /** The pipelined GETs: one read per id, nothing written. */
  method PipelineGet(store: Store, ids: seq<int>) returns (cached: seq<Option<string>>)
    ensures cached == Snapshot(store.entries, store.clock, ids)
  {
    cached := [];
    var i := 0;
    while i < |ids|
      invariant 0 <= i <= |ids| && |cached| == i
      invariant forall j :: 0 <= j < i ==> cached[j] == Lookup(store.entries, store.clock, ProductKey(ids[j]))
    {
      var c := store.Get(ProductKey(ids[i]));
      cached := cached + [c];
      i := i + 1;
    }
  }

  /** One id of the batch: decode its cached text, or read its row and write it back for 60 s. */
  method FetchOne(store: Store, db: Db, id: int, text: Option<string>) returns (c: Result<seq<Json>, Exception>)
    modifies store
    ensures var cached := if text.Some? then Some(Loads(text.value)) else None;
      var writable := SetExAccepts(BatchTtlSeconds, old(store.clock));
      && c == Contribution(db, id, cached, writable)
      && store.entries == WriteBack(old(store.entries), db, id, cached, writable, old(store.clock) + ProductTtlMillis)
    ensures store.clock == old(store.clock)
  {
    if text.Some? {
      var v := Loads(text.value);
      match v
      case Ok(value) => c := Ok([value]);
      case Err(e) => c := Err(e);
    } else {
      var row := FindById(db, id);
      if row.Some? {
        var ok := store.SetEx(ProductKey(id), BatchTtlSeconds, Encode(ProductJson(row.value)));
        if ok {
          c := Ok([ProductJson(row.value)]);
        } else {
          c := Err(ResponseError);
        }
      } else {
        c := Ok([]);
      }
    }
  }

  /**
   * `get_multiple_products`: GET every id's key in one batch, then walk the
   * ids in order, decoding hits and falling back to the table for misses;
   * a miss whose row exists is stored for 60 s.
   */
  method GetMultipleProducts(store: Store, db: Db, ids: seq<int>) returns (r: Result<seq<Json>, Exception>)
    modifies store
    ensures store.clock == old(store.clock)
    ensures var cs := DecodeAll(Snapshot(old(store.entries), old(store.clock), ids));
      var writable := SetExAccepts(BatchTtlSeconds, old(store.clock));
      && r == Gather(db, ids, cs, writable)
      && store.entries == Filled(old(store.entries), db, ids, cs, writable, old(store.clock) + ProductTtlMillis)
  {
    var texts := PipelineGet(store, ids);
    r := WalkBatch(store, db, ids, texts);
  }

  /** The loop over the pipeline's answers, in the order of the ids. */
  method WalkBatch(store: Store, db: Db, ids: seq<int>, texts: seq<Option<string>>) returns (r: Result<seq<Json>, Exception>)
    requires |texts| == |ids|
    modifies store
    ensures store.clock == old(store.clock)
    ensures var writable := SetExAccepts(BatchTtlSeconds, old(store.clock));
      && r == Gather(db, ids, DecodeAll(texts), writable)
      && store.entries == Filled(old(store.entries), db, ids, DecodeAll(texts), writable, old(store.clock) + ProductTtlMillis)
  {
    ghost var start := store.entries;
    ghost var writable := SetExAccepts(BatchTtlSeconds, store.clock);
    ghost var expiry := store.clock + ProductTtlMillis;
    var results: seq<Json> := [];
    var i := 0;
    WalkBegins(db, ids, texts, writable, start, expiry);
    while i < |ids|
      invariant store.clock == old(store.clock)
      invariant Walked(db, ids, texts, writable, start, store.entries, expiry, i, results)
    {
      ghost var before := store.entries;
      var c := FetchOne(store, db, ids[i], texts[i]);
      WalkStep(db, ids, texts, writable, start, before, store.entries, expiry, i, results, c);
      if c.Err? {
        return Err(c.error);
      }
      results := results + c.value;
      i := i + 1;
    }
    WalkEnds(db, ids, texts, writable, start, store.entries, expiry, results);
    r := Ok(results);
  }

  /**
   * The walk after its first i ids: the batch's answer is `results` followed
   * by the answer for the other ids, and its writes continue from `current`
   * as the writes for the other ids.
   */
  ghost predicate Walked(db: Db, ids: seq<int>, texts: seq<Option<string>>, writable: bool, start: map<string, Entry>,
                         current: map<string, Entry>, expiry: int, i: int, results: seq<Json>) {
    && 0 <= i <= |ids| == |texts|
    && Gather(db, ids, DecodeAll(texts), writable) == Then(results, Gather(db, ids[i..], DecodeAll(texts)[i..], writable))
    && Filled(start, db, ids, DecodeAll(texts), writable, expiry)
       == Filled(current, db, ids[i..], DecodeAll(texts)[i..], writable, expiry)
  }

  lemma WalkBegins(db: Db, ids: seq<int>, texts: seq<Option<string>>, writable: bool, start: map<string, Entry>, expiry: int)
    requires |texts| == |ids|
    ensures Walked(db, ids, texts, writable, start, start, expiry, 0, [])
  {
    var cached := DecodeAll(texts);
    assert ids[0..] == ids && cached[0..] == cached;
    ThenNothing(Gather(db, ids, cached, writable));
  }

  lemma WalkEnds(db: Db, ids: seq<int>, texts: seq<Option<string>>, writable: bool, start: map<string, Entry>,
                 current: map<string, Entry>, expiry: int, results: seq<Json>)
    requires Walked(db, ids, texts, writable, start, current, expiry, |ids|, results)
    ensures Gather(db, ids, DecodeAll(texts), writable) == Ok(results)
    ensures Filled(start, db, ids, DecodeAll(texts), writable, expiry) == current
  {
    var cached := DecodeAll(texts);
    assert ids[|ids|..] == [] && cached[|ids|..] == [];
    assert results + [] == results;
  }

  /** One id of the walk: its contribution and write-back either end the batch or carry the walk to the next id. */
  lemma WalkStep(db: Db, ids: seq<int>, texts: seq<Option<string>>, writable: bool, start: map<string, Entry>,
                 before: map<string, Entry>, after: map<string, Entry>, expiry: int, i: int, results: seq<Json>,
                 c: Result<seq<Json>, Exception>)
    requires Walked(db, ids, texts, writable, start, before, expiry, i, results) && i < |ids|
    requires var cached := if texts[i].Some? then Some(Loads(texts[i].value)) else None;
      c == Contribution(db, ids[i], cached, writable) && after == WriteBack(before, db, ids[i], cached, writable, expiry)
    ensures c.Err? ==>
      Gather(db, ids, DecodeAll(texts), writable) == Err(c.error) && Filled(start, db, ids, DecodeAll(texts), writable, expiry) == after
    ensures c.Ok? ==> Walked(db, ids, texts, writable, start, after, expiry, i + 1, results + c.value)
  {
    var cached := DecodeAll(texts);
    assert cached[i] == if texts[i].Some? then Some(Loads(texts[i].value)) else None;
    GatherAdvance(db, ids, cached, writable, i, results, c);
    FilledAdvance(start, before, after, db, ids, cached, writable, expiry, i);
  }

  /** The key of some id of the batch. */
  predicate BatchKey(ids: seq<int>, k: string) {
    exists j :: 0 <= j < |ids| && ProductKey(ids[j]) == k
  }

  /** The batch wrote `id`'s row back: some occurrence of it missed and the row exists. */
  predicate Refilled(db: Db, ids: seq<int>, cs: seq<Decoded>, id: int)
    requires |cs| == |ids|
  {
    FindById(db, id).Some? && exists j :: 0 <= j < |ids| && ids[j] == id && cs[j].None?
  }

  /** After a batch without failure, an id's key holds its written-back row if it was refilled, and what it held before otherwise. */
  lemma {:induction false} FilledLookup(entries: map<string, Entry>, db: Db, ids: seq<int>, cs: seq<Decoded>,
                                        writable: bool, expiry: int, now: int, id: int)
    requires |cs| == |ids| && NoFailure(db, ids, cs, writable) && now <= expiry
    decreases |ids|
    ensures Lookup(Filled(entries, db, ids, cs, writable, expiry), now, ProductKey(id)) ==
      if Refilled(db, ids, cs, id) then Some(Encode(ProductJson(FindById(db, id).value)))
      else Lookup(entries, now, ProductKey(id))
  {
    if ids != [] {
      var next := WriteBack(entries, db, ids[0], cs[0], writable, expiry);
      assert Contribution(db, ids[0], cs[0], writable).Ok?;
      assert NoFailure(db, ids[1..], cs[1..], writable) by {
        assert forall j :: 0 <= j < |ids[1..]| ==> ids[1..][j] == ids[j + 1] && cs[1..][j] == cs[j + 1];
      }
      FilledLookup(next, db, ids[1..], cs[1..], writable, expiry, now, id);
      assert Refilled(db, ids, cs, id) <==>
        (FindById(db, id).Some? && ids[0] == id && cs[0].None?) || Refilled(db, ids[1..], cs[1..], id)
      by {
        if Refilled(db, ids, cs, id) && !(ids[0] == id && cs[0].None?) {
          var j :| 0 <= j < |ids| && ids[j] == id && cs[j].None?;
          assert ids[1..][j - 1] == id && cs[1..][j - 1].None?;
        }
        if Refilled(db, ids[1..], cs[1..], id) {
          var j :| 0 <= j < |ids[1..]| && ids[1..][j] == id && cs[1..][j].None?;
          assert ids[j + 1] == id && cs[j + 1].None?;
        }
      }
      if ids[0] != id {
        if ProductKey(ids[0]) == ProductKey(id) {
          ProductKeyInjective(ids[0], id);
        }
      }
    }
  }

  lemma {:induction false} GatherPointwise(db: Db, ids: seq<int>, cs: seq<Decoded>, cs': seq<Decoded>, writable: bool)
    requires |cs| == |ids| == |cs'|
    requires forall i :: 0 <= i < |ids| ==> Contribution(db, ids[i], cs[i], writable) == Contribution(db, ids[i], cs'[i], writable)
    ensures Gather(db, ids, cs, writable) == Gather(db, ids, cs', writable)
  {
    if ids != [] {
      assert forall i :: 0 <= i < |ids| - 1 ==> ids[1..][i] == ids[i + 1] && cs[1..][i] == cs[i + 1] && cs'[1..][i] == cs'[i + 1];
      GatherPointwise(db, ids[1..], cs[1..], cs'[1..], writable);
      assert Contribution(db, ids[0], cs[0], writable) == Contribution(db, ids[0], cs'[0], writable);
    }
  }

  /**
   * Asking again for the same ids at the same moment, after a batch that
   * succeeded, gives the same products: hits are untouched and every
   * written-back row decodes to the row it came from.
   */
  lemma SecondBatchAgrees(entries: map<string, Entry>, db: Db, ids: seq<int>, now: int)
    requires Gather(db, ids, DecodeAll(Snapshot(entries, now, ids)), SetExAccepts(BatchTtlSeconds, now)).Ok?
    ensures var first := DecodeAll(Snapshot(entries, now, ids));
      var writable := SetExAccepts(BatchTtlSeconds, now);
      var after := Filled(entries, db, ids, first, writable, now + ProductTtlMillis);
      Gather(db, ids, DecodeAll(Snapshot(after, now, ids)), writable) == Gather(db, ids, first, writable)
  {
    var writable := SetExAccepts(BatchTtlSeconds, now);
    var texts := Snapshot(entries, now, ids);
    var first := DecodeAll(texts);
    var after := Filled(entries, db, ids, first, writable, now + ProductTtlMillis);
    var texts' := Snapshot(after, now, ids);
    var second := DecodeAll(texts');
    GatherOk(db, ids, first, writable);
    forall i | 0 <= i < |ids|
      ensures Contribution(db, ids[i], first[i], writable) == Contribution(db, ids[i], second[i], writable)
    {
      FilledLookup(entries, db, ids, first, writable, now + ProductTtlMillis, now, ids[i]);
      if Refilled(db, ids, first, ids[i]) {
        var j :| 0 <= j < |ids| && ids[j] == ids[i] && first[j].None?;
        assert texts[i] == texts[j] == None;
        LoadsDumps(ProductJson(FindById(db, ids[i]).value));
      }
    }
    GatherPointwise(db, ids, first, second, writable);
  }

  // ---------------------------------------------------------------------
  // Update and invalidation (`update_product`)

  datatype SqlParam = Text(s: string) | Number(n: int)

  /** An SQL statement with `?` placeholders and the parameters bound to them, in order. */
  datatype Statement = Statement(sql: string, params: seq<SqlParam>)

  /** The columns `update_product` may set. */
  datatype Column = NameColumn | PriceColumn | DescriptionColumn

  function ColumnName(col: Column): (r: string)
    ensures '?' !in r
  {
    match col
    case NameColumn => "name"
    case PriceColumn => "price"
    case DescriptionColumn => "description"
  }

  /** The `column = ?` text of one assignment; it holds exactly one placeholder. */
  function ClauseText(col: Column): (r: string)
    ensures CountChar(r, '?') == 1
  {
    OnePlaceholder(ColumnName(col));
    ColumnName(col) + " = ?"
  }

  /** The SET assignments for the fields given, in the order name, price, description. */
  function Assignments(name: Option<string>, price: Option<int>, description: Option<string>): (r: seq<(Column, SqlParam)>)
    ensures |r| == (if name.Some? then 1 else 0) + (if price.Some? then 1 else 0) + (if description.Some? then 1 else 0)
    ensures name.Some? ==> r[0] == (NameColumn, Text(name.value))
    ensures price.Some? ==> (if name.Some? then r[1] else r[0]) == (PriceColumn, Number(price.value))
    ensures description.Some? ==> r[|r| - 1] == (DescriptionColumn, Text(description.value))
  {
    (if name.Some? then [(NameColumn, Text(name.value))] else [])
    + (if price.Some? then [(PriceColumn, Number(price.value))] else [])
    + (if description.Some? then [(DescriptionColumn, Text(description.value))] else [])
  }

  /** The `column = ?` texts of the assignments. */
  function Clauses(a: seq<(Column, SqlParam)>): (r: seq<string>)
    ensures |r| == |a| && forall i :: 0 <= i < |a| ==> r[i] == ClauseText(a[i].0)
  {
    seq(|a|, i requires 0 <= i < |a| => ClauseText(a[i].0))
  }

  /** The values of the assignments, in order. */
  function Values(a: seq<(Column, SqlParam)>): (r: seq<SqlParam>)
    ensures |r| == |a| && forall i :: 0 <= i < |a| ==> r[i] == a[i].1
  {
    seq(|a|, i requires 0 <= i < |a| => a[i].1)
  }

  function CountChar(s: string, c: char): nat {
    if s == [] then 0 else (if s[0] == c then 1 else 0) + CountChar(s[1..], c)
  }

  lemma {:induction false} CountCharConcat(a: string, b: string, c: char)
    ensures CountChar(a + b, c) == CountChar(a, c) + CountChar(b, c)
  {
    if a == [] {
      assert a + b == b;
    } else {
      assert (a + b)[1..] == a[1..] + b;
      CountCharConcat(a[1..], b, c);
    }
  }

  /** Each assignment text holds one placeholder, so the joined clause holds as many as there are assignments. */
  lemma {:induction false} JoinedPlaceholders(parts: seq<string>)
    ensures (forall i :: 0 <= i < |parts| ==> CountChar(parts[i], '?') == 1) ==> CountChar(Join(", ", parts), '?') == |parts|
  {
    if |parts| > 1 {
      JoinedPlaceholders(parts[1..]);
      assert forall i :: 0 <= i < |parts| - 1 ==> parts[1..][i] == parts[i + 1];
      CountCharConcat(parts[0] + ", ", Join(", ", parts[1..]), '?');
      CountCharConcat(parts[0], ", ", '?');
    }
  }

  /** The UPDATE text; with one placeholder in each clause it holds one per clause plus the one for the id. */
  function UpdateSql(clauses: seq<string>): (r: string)
    ensures (forall i :: 0 <= i < |clauses| ==> CountChar(clauses[i], '?') == 1) ==> CountChar(r, '?') == |clauses| + 1
  {
    var head, tail := "UPDATE products SET ", " WHERE id = ?";
    UpdateFrame();
    JoinedPlaceholders(clauses);
    CountCharConcat(head + Join(", ", clauses), tail, '?');
    CountCharConcat(head, Join(", ", clauses), '?');
    CountAbsent(head, '?');
    head + Join(", ", clauses) + tail
  }

  /**
   * The statement `update_product` executes binds every placeholder: one
   * parameter per assignment, and the product id for `WHERE id = ?`.
   */
  lemma PlaceholdersMatchParams(name: Option<string>, price: Option<int>, description: Option<string>, id: int)
    ensures var a := Assignments(name, price, description);
      CountChar(UpdateSql(Clauses(a)), '?') == |Values(a) + [Number(id)]|
  {
  }

  /** The fixed text around the SET clauses has no placeholder before them and one after. */
  lemma UpdateFrame()
    ensures '?' !in "UPDATE products SET "
    ensures CountChar(" WHERE id = ?", '?') == 1
  {
    OnePlaceholder(" WHERE id");
    assert " WHERE id" + " = ?" == " WHERE id = ?";
  }

  lemma {:induction false} CountAbsent(s: string, c: char)
    requires c !in s
    ensures CountChar(s, c) == 0
  {
    if s != [] {
      CountAbsent(s[1..], c);
    }
  }

  lemma OnePlaceholder(column: string)
    requires '?' !in column
    ensures CountChar(column + " = ?", '?') == 1
  {
    CountCharConcat(column, " = ?", '?');
    CountAbsent(column, '?');
  }

  /** A row with the given fields replaced and the others kept. */
  function Updated(p: Product, name: Option<string>, price: Option<int>, description: Option<string>): Product {
    Product(p.id, if name.Some? then name.value else p.name,
            if description.Some? then description else p.description,
            if price.Some? then price.value else p.price)
  }

  /** The table after `UPDATE products SET ... WHERE id = ?`: the given fields replaced in the rows with that id. */
  function ApplyUpdate(db: Db, id: int, name: Option<string>, price: Option<int>, description: Option<string>): (r: Db)
    ensures |r.rows| == |db.rows|
    ensures forall i :: 0 <= i < |db.rows| ==>
      r.rows[i] == if db.rows[i].id == id then Updated(db.rows[i], name, price, description) else db.rows[i]
  {
    Db(seq(|db.rows|, i requires 0 <= i < |db.rows| =>
      if db.rows[i].id == id then Updated(db.rows[i], name, price, description) else db.rows[i]))
  }

  /**
   * Reading a product back after the update: the updated product is the old
   * row with the given fields replaced, a missing one is still missing, and
   * every other product reads as before.
   */
  lemma {:induction false} FindAfterUpdate(db: Db, id: int, name: Option<string>, price: Option<int>, description: Option<string>, k: int)
    ensures FindById(ApplyUpdate(db, id, name, price, description), k) ==
      if k != id then FindById(db, k)
      else if FindById(db, id).None? then None
      else Some(Updated(FindById(db, id).value, name, price, description))
    decreases |db.rows|
  {
    var after := ApplyUpdate(db, id, name, price, description);
    if db.rows != [] {
      var rest := Db(db.rows[1..]);
      FindAfterUpdate(rest, id, name, price, description, k);
      assert after.rows[1..] == ApplyUpdate(rest, id, name, price, description).rows;
    }
  }

  /** The part of `update_product` that collects the `column = ?` texts and their values, field by field. */
  method SetClauses(name: Option<string>, price: Option<int>, description: Option<string>)
    returns (updates: seq<string>, params: seq<SqlParam>)
    ensures var a := Assignments(name, price, description);
      updates == Clauses(a) && params == Values(a)
  {
    updates, params := [], [];
    ghost var a: seq<(Column, SqlParam)> := [];
    if name.Some? {
      AppendAssignment(a, (NameColumn, Text(name.value)));
      a := a + [(NameColumn, Text(name.value))];
      updates := updates + [ClauseText(NameColumn)];
      params := params + [Text(name.value)];
    }
    if price.Some? {
      AppendAssignment(a, (PriceColumn, Number(price.value)));
      a := a + [(PriceColumn, Number(price.value))];
      updates := updates + [ClauseText(PriceColumn)];
      params := params + [Number(price.value)];
    }
    if description.Some? {
      AppendAssignment(a, (DescriptionColumn, Text(description.value)));
      a := a + [(DescriptionColumn, Text(description.value))];
      updates := updates + [ClauseText(DescriptionColumn)];
      params := params + [Text(description.value)];
    }
    assert a == Assignments(name, price, description);
  }

  lemma AppendAssignment(a: seq<(Column, SqlParam)>, x: (Column, SqlParam))
    ensures Clauses(a + [x]) == Clauses(a) + [ClauseText(x.0)]
    ensures Values(a + [x]) == Values(a) + [x.1]
  {
  }

  /** Whether the ints an UPDATE binds fit SQLite's INTEGER: the price, when given, and the id. */
  predicate UpdateBinds(id: int, price: Option<int>) {
    FitsInt64(id) && (price.Some? ==> FitsInt64(price.value))
  }

  /**
   * `update_product`: build the SET clause from the fields given (none given:
   * answer false and touch nothing), run the update, then delete the
   * product's key and every live key of the decorated listing. A price or
   * id wider than 64 bits raises when bound; the table and the store are
   * then left alone.
   */
  method UpdateProduct(store: Store, db: Db, id: int, name: Option<string>, price: Option<int>, description: Option<string>)
    returns (r: Result<bool, Exception>, executed: Option<Statement>, db': Db)
    modifies store
    ensures var fields := name.Some? || price.Some? || description.Some?;
      && (r == Ok(false) <==> !fields)
      && (r == Err(OverflowError) <==> fields && !UpdateBinds(id, price))
      && (r == Ok(true) <==> fields && UpdateBinds(id, price))
    ensures store.clock == old(store.clock)
    ensures r != Ok(true) ==> executed.None? && db' == db && store.entries == old(store.entries)
    ensures r == Ok(true) ==>
      var a := Assignments(name, price, description);
      && executed == Some(Statement(UpdateSql(Clauses(a)), Values(a) + [Number(id)]))
      && db' == ApplyUpdate(db, id, name, price, description)
      && store.entries == old(store.entries) - ({ProductKey(id)} + LiveKeysWithPrefix(old(store.entries), store.clock, ListPrefix + ":"))
    ensures r == Ok(true) ==> Lookup(store.entries, store.clock, ProductKey(id)).None?
    ensures r == Ok(true) ==> forall args, kwargs :: Lookup(store.entries, store.clock, CacheKey(ListPrefix, args, kwargs)).None?
  {
    var updates, params := SetClauses(name, price, description);
    if updates == [] {
      return Ok(false), None, db;
    }
    params := params + [Number(id)];
    if !UpdateBinds(id, price) {
      return Err(OverflowError), None, db;
    }
    executed := Some(Statement(UpdateSql(updates), params));
    db' := ApplyUpdate(db, id, name, price, description);
    r := Ok(true);

    var _ := store.Delete({ProductKey(id)});
    var keys := store.KeysWithPrefix(ListPrefix + ":");
    ProductKeyNotListKey(id);
    assert keys == LiveKeysWithPrefix(old(store.entries), store.clock, ListPrefix + ":");
    if keys != {} {
      var _ := store.Delete(keys);
    }
    assert store.entries == old(store.entries) - ({ProductKey(id)} + keys);
    forall args, kwargs
      ensures Lookup(store.entries, store.clock, CacheKey(ListPrefix, args, kwargs)).None?
    {
      var k := CacheKey(ListPrefix, args, kwargs);
      if k in old(store.entries) && IsLive(old(store.entries)[k], store.clock) {
        assert k in keys;
      }
    }
  }

  /**
   * The point of the invalidation: right after an update, the decorated
   * listing misses and answers from the updated table, whatever its
   * arguments. An update that answers false or raises changes no row.
   */
  method UpdateThenList(store: Store, db: Db, id: int, name: Option<string>, price: Option<int>, description: Option<string>,
                        args: seq<PyValue>, kwargs: seq<(string, PyValue)>)
    returns (updated: Result<bool, Exception>, r: Result<Json, Exception>, calls: nat, db': Db)
    modifies store
    ensures updated == Ok(true) ==>
      && db' == ApplyUpdate(db, id, name, price, description) && calls == 1
      && r == MissResult(ListingBody(db', args, kwargs), ListTtlSeconds, store.clock)
    ensures updated != Ok(true) ==> db' == db
  {
    var executed;
    updated, executed, db' := UpdateProduct(store, db, id, name, price, description);
    ghost var missed := Lookup(store.entries, store.clock, CacheKey(ListPrefix, args, kwargs)).None?;
    r, calls := GetProductsRedis(store, db', args, kwargs);
    assert updated == Ok(true) ==> missed;
  }
}
