# Caching workshop core in Dafny

This project models the caching layer of a small product catalogue and proves
its properties. The layer has three parts:

- **The in-process cache of `get_products` and `get_product_by_id`.** A
  dictionary of `{data, timestamp}` entries, with a 30 s time to live for
  pages and 60 s for products.
- **The `redis_cache(key_prefix, ttl)` decorator.** It builds the key from
  the prefix, `str(args)` and `str(kwargs)`. A hit answers `json.loads` of
  the stored text. A miss calls the function once and stores `json.dumps` of
  its result with SETEX.
- **The Redis-backed helpers.** The decorated listing `get_products_redis`,
  the stampede-protected read-through `get_with_stampede_protection` (SETNX
  lock, EXPIRE, DEL in a `finally`), the pipelined batch read
  `get_multiple_products`, and `update_product`, which builds a
  parameterised UPDATE and then invalidates the product key and every
  `products_list:*` key.

The project also models the Fibonacci demo: a plain doubly recursive
definition and the same equations memoised by `lru_cache(maxsize=128)`.

The modules:

- `Wrappers`: `Option`, `Result` and the Python exceptions the code can raise.
- `Strings`: prefixes and Python's `str.join`.
- `Decimal`: `str(int)`.
- `Json`: `json.dumps` and `json.loads` over null, bool, int, str, list and
  dict values. `json.dumps` is modelled with its default separators and
  `ensure_ascii`. A round trip is proved.
- `KvStore`: the Redis server as a class `Store`. It holds a map from keys to
  entries, each with an optional absolute expiry, and a millisecond clock.
  Expiry is lazy: an expired entry may stay in the map, but GET and KEYS
  treat it as absent. As in Redis, a key counts as expired only once the
  clock is past its expiry time. Expire times are absolute milliseconds
  held in a signed 64-bit integer: SETEX and EXPIRE answer an error for a
  time the server cannot hold (`SetExAccepts`, `ExpireAccepts`), and change
  nothing.
- `RedisCache`: the decorator.
- `Calculator`: the Fibonacci functions.
- `Products`: the catalogue.

Some things the code reads or depends on become values and parameters:

- The database is a value `Db`: the rows of `products` in `ORDER BY id`
  order. Binding an int outside 64 bits as an SQL parameter raises
  `OverflowError` before the statement runs. SQLite reads the LIMIT first: a
  text bound to it that it cannot read as an integer raises
  `IntegrityError`; a LIMIT of 0 ends the query with no rows before the
  OFFSET is read; otherwise an OFFSET text that is not an integer raises
  `IntegrityError` too.
- Wall-clock time is a parameter (`now`), or the store's clock.
- A decorated function or a producer is a function value returning
  `Result<Json, Exception>`.

`products.py` does not run as it stands:

- It uses `cache`, `json`, `current_app` and `get_product_from_db` without
  defining or importing them.
- Line 187 has an unbalanced parenthesis.

The model follows the evident intent instead:

- `cache` is the same Redis client the decorator uses (a `Store`).
- `get_product_from_db` is the `SELECT * ... WHERE id = ?` lookup
  (`FindById`).

## Model

| member | source | states |
|---|---|---|
| Decimal.NatRoundTrip | caching-workshop/app/models/products.py:10 | reading back the digits `str(n)` writes gives `n` |
| Decimal.IntToString | caching-workshop/app/models/products.py:10 | `str(i)` is a non-empty text that starts with '-' exactly when i is negative and holds only digits after that sign |
| Decimal.IntToStringInjective | caching-workshop/app/models/products.py:10 | equal decimal texts come from equal integers |
| Json.Decode | caching-workshop/app/utils/redis_cache.py:25 | a text of nothing but whitespace never decodes (what the decoder answers for encoded values is stated by `Json.RoundTrip` and `Json.LoadsDumps`) |
| Json.LoadsSkipsLeadingWhitespace | caching-workshop/app/utils/redis_cache.py:25 | `json.loads` answers the same with or without whitespace in front of the value |
| Json.RoundTrip | caching-workshop/app/utils/redis_cache.py:25-31 | decoding the text `json.dumps` writes gives back the value, for every modelled value |
| Json.LoadsDumps | caching-workshop/app/utils/redis_cache.py:25-31 | `json.loads(json.dumps(v)) == v` |
| Json.Encode | caching-workshop/app/utils/redis_cache.py:31 | `json.dumps` text is non-empty and starts with no whitespace and no ']' |
| KvStore.LookupAfterSet | caching-workshop/app/utils/redis_cache.py:31 | after a SETEX, GET of that key answers the new value until its expiry time and nothing after it; every other key reads as before |
| KvStore.LookupAfterDeletePrefix | caching-workshop/app/models/products.py:224-226 | after KEYS "prefix*" and DEL of the answer, no key with the prefix is readable and every other key reads as before |
| KvStore.ExpiredStaysExpired | caching-workshop/app/utils/redis_cache.py:31 | an entry absent at some time is still absent later |
| KvStore.Store.Get | caching-workshop/app/utils/redis_cache.py:22 | GET answers `Lookup` at the store's clock |
| KvStore.Store.SetEx | caching-workshop/app/utils/redis_cache.py:31 | SETEX succeeds exactly for a positive ttl whose expiry time fits the server's signed 64-bit milliseconds (`SetExAccepts`), overwrites the key to expire ttl s from now, and the key then reads back the value; otherwise nothing changes |
| KvStore.Store.SetNx | caching-workshop/app/models/products.py:150 | SETNX stores exactly when the key is not live, with no expiry, and answers whether it stored |
| KvStore.Store.Expire | caching-workshop/app/models/products.py:152 | EXPIRE raises ResponseError, before looking at the key, exactly when the expiry time does not fit the server's signed 64-bit milliseconds (`ExpireAccepts`), and then changes nothing; otherwise it answers whether the key is live, re-times a live key or deletes it for a non-positive time, and changes nothing else |
| KvStore.Store.Delete | caching-workshop/app/models/products.py:221-226 | DEL removes exactly the given keys, counts the live ones removed, and leaves none of them readable |
| KvStore.Store.KeysWithPrefix | caching-workshop/app/models/products.py:224 | KEYS answers the live keys with the prefix |
| KvStore.Store.Advance | caching-workshop/app/models/products.py:164 | sleeping moves the clock forward and changes no entry |
| RedisCache.ReprChar | caching-workshop/app/utils/redis_cache.py:18 | each character of a str repr is written as itself or as an escape starting with a backslash, never as a bare quote |
| RedisCache.ReprCharUnique | caching-workshop/app/utils/redis_cache.py:18 | the character escapes form a prefix code: the text of the first character determines it |
| RedisCache.ReprStrUnique | caching-workshop/app/utils/redis_cache.py:18 | a str repr, whatever follows it, can be read back only one way |
| RedisCache.Repr | caching-workshop/app/utils/redis_cache.py:18 | an argument's repr never starts with a separator or a closing bracket |
| RedisCache.ReprUnique | caching-workshop/app/utils/redis_cache.py:18 | an argument's repr, followed by a separator or a closing bracket, determines the argument |
| RedisCache.ReprTuple | caching-workshop/app/utils/redis_cache.py:18 | `str(args)` is parenthesised |
| RedisCache.ReprTupleUnique | caching-workshop/app/utils/redis_cache.py:18 | `str(args)` followed by the key's colon determines the positional arguments |
| RedisCache.ReprDict | caching-workshop/app/utils/redis_cache.py:18 | `str(kwargs)` is braced |
| RedisCache.ReprDictInjective | caching-workshop/app/utils/redis_cache.py:18 | different keyword arguments (names, values or order) give different `str(kwargs)` |
| RedisCache.CacheKey | caching-workshop/app/utils/redis_cache.py:18 | every key of a decorated function starts with its prefix and a colon |
| RedisCache.CacheKeyInjective | caching-workshop/app/utils/redis_cache.py:18 | calls with different positional or keyword arguments never share a cache key |
| RedisCache.MissResult | caching-workshop/app/utils/redis_cache.py:28-33 | a miss answers Ok exactly when the function returned and SETEX accepts the ttl at that moment (`SetExAccepts`: positive and within the server's 64-bit expire range); a refused SETEX raises ResponseError; the function's exception passes through unchanged |
| RedisCache.AfterMiss | caching-workshop/app/utils/redis_cache.py:31 | a miss changes no other key; when it stores, `json.loads` of the stored text is the function's result; otherwise nothing is written |
| RedisCache.StoredResultIsReturned | caching-workshop/app/utils/redis_cache.py:22-31 | what a miss stored is read back, and decoded to the same result, until its expiry time |
| RedisCache.CachedCall | caching-workshop/app/utils/redis_cache.py:16-33 | a hit makes no call, answers the decoded text and writes nothing; a miss makes exactly one call, answers its outcome, and stores the encoded result only when the call returned and SETEX accepts the ttl |
| RedisCache.StoreResult | caching-workshop/app/utils/redis_cache.py:31-33 | the miss path after the call: SETEX of the encoded result, or an exception passed through with the store unchanged |
| RedisCache.CallTwice | caching-workshop/app/utils/redis_cache.py:16-33 | two calls with the same arguments at the same moment: once the first returns, the second answers the same result, and the function ran at most once |
| Calculator.FibUncached | caching-workshop/app/utils/calculator.py:4-8 | `fibonacci_uncached(n)` is n for n <= 1 (negatives included), never negative from 0 on, and at least 1 from 1 on |
| Calculator.Without | caching-workshop/app/utils/calculator.py:10 | removing a key from the recency order keeps every other key and shrinks the order when the key was there |
| Calculator.WithoutDistinct | caching-workshop/app/utils/calculator.py:10 | removal keeps the order free of repeats |
| Calculator.WithoutRemovesOne | caching-workshop/app/utils/calculator.py:10 | in an order without repeats, removal takes out the key's one position and keeps the rest in order |
| Calculator.Touch | caching-workshop/app/utils/calculator.py:10 | an `lru_cache` hit keeps the cache well formed and makes the key the most recently used |
| Calculator.TouchKeepsOrder | caching-workshop/app/utils/calculator.py:10 | a hit moves only the key to the most recently used end; the other keys keep their relative order |
| Calculator.Insert | caching-workshop/app/utils/calculator.py:10 | an `lru_cache` miss stores the new result, keeps at most 128 entries by evicting only the least recently used one, and changes no other stored result |
| Calculator.FibCached | caching-workshop/app/utils/calculator.py:10-15 | `fibonacci_cached(n)` equals `fibonacci_uncached(n)` for every n, and the memo stays well formed and holds only true results |
| Calculator.SameEquationsSameFunction | caching-workshop/app/utils/calculator.py:4-15 | any function obeying the two equations both versions share is `fibonacci_uncached` |
| Calculator.FibFromIsFib | caching-workshop/app/utils/calculator.py:4-8 | counting up from two consecutive values reaches the Fibonacci number n steps on |
| Calculator.FibThirty | caching-workshop/app/utils/calculator.py:19-23 | `fibonacci_uncached(30) == 832040` |
| Calculator.BenchmarkFibonacci | caching-workshop/app/utils/calculator.py:17-37 | the benchmark reports n = 30 and result 832040 |
| Products.Summarize | caching-workshop/app/models/products.py:30-38 | the `SELECT id, name, price` projection keeps the rows and their order |
| Products.SelectPage | caching-workshop/app/models/products.py:28-35 | LIMIT/OFFSET selects a contiguous run of rows from max(offset, 0), of length limit or up to the end (all the rest for a negative limit) |
| Products.FindById | caching-workshop/app/models/products.py:86-94 | the lookup finds a row exactly when some row has the id, and the row it answers has that id |
| Products.RowById | caching-workshop/app/models/products.py:86-91 | the by-id query raises OverflowError exactly for an id outside 64 bits, and otherwise answers the lookup |
| Products.FloorDiv | caching-workshop/app/models/products.py:51 | Python's `//` rounds the quotient towards negative infinity for either sign of divisor |
| Products.PageCount | caching-workshop/app/models/products.py:51 | the page count is never negative for a positive page size, and equals the total for a page size of 1 |
| Products.PageCountIsCeiling | caching-workshop/app/models/products.py:51 | for a positive page size, `pages` is the ceiling of total / per_page |
| Products.PageOffset | caching-workshop/app/models/products.py:28 | page 1 starts at offset 0, and for a positive page size the offset is non-negative exactly from page 1 on |
| Products.OffsetBeforeEnd | caching-workshop/app/models/products.py:28-51 | with `pages` the ceiling of n / per_page, a page from 1 starts before row n exactly when its number is at most `pages` |
| Products.PageNonEmptyIffCounted | caching-workshop/app/models/products.py:28-51 | page p (from 1) has rows exactly when p <= pages |
| Products.LowPagesListFirstPage | caching-workshop/app/models/products.py:28 | page numbers below 1 list the first page |
| Products.PageKey | caching-workshop/app/models/products.py:10 | page keys start with `products_page_` |
| Products.ProductKey | caching-workshop/app/models/products.py:67 | product keys start with `product_` |
| Products.LockKey | caching-workshop/app/models/products.py:149 | the lock key extends the data key and differs from it |
| Products.PageKeyInjective | caching-workshop/app/models/products.py:10 | different (page, per_page) pairs never share a cache entry |
| Products.ProductKeyInjective | caching-workshop/app/models/products.py:67 | different products never share a cache entry |
| Products.PageKeyNotProductKey | caching-workshop/app/models/products.py:67 | a page key is never a product key |
| Products.ProductKeyNotListKey | caching-workshop/app/models/products.py:221-226 | deleting the product key never touches a listing key |
| Products.QueryPage | caching-workshop/app/models/products.py:27-54 | the listing raises OverflowError exactly when per_page or the offset is outside 64 bits, and otherwise ZeroDivisionError exactly for per_page 0; a result echoes page and per_page, reports the table size as total and lists at most per_page rows |
| Products.QueryPageLists | caching-workshop/app/models/products.py:28-51 | for a positive page size and a page from 1, the page lists the summaries of the rows from the offset on, as many as fit, and has rows exactly when its number is at most `pages` |
| Products.LocalCache.GetProducts | caching-workshop/app/models/products.py:8-63 | a fresh entry answers without a query and changes nothing; otherwise the query result is answered and, with caching on and no error, stored stamped `now`; the cache only ever holds each key's own request |
| Products.LocalCache.GetProductById | caching-workshop/app/models/products.py:65-112 | a fresh entry answers without a query; otherwise an id outside 64 bits raises OverflowError and a missing product answers None, neither cached, and a found one is answered and, with caching on, stored |
| Products.BindKeywords | caching-workshop/app/models/products.py:115 | the call binds exactly when every keyword is `page` or `per_page` and none is given twice (a positional value counts); each parameter then holds its positional or keyword value; otherwise TypeError |
| Products.BindListingArgs | caching-workshop/app/models/products.py:115 | positional arguments come first, more than two raise TypeError, and no arguments give the defaults 1 and 10 |
| Products.ListingQuery | caching-workshop/app/models/products.py:118-135 | a non-number page or a None per_page raises TypeError; a str per_page raises IntegrityError or TypeError, and TypeError exactly when SQLite reads it as an integer and either it reads as 0 (the OFFSET is then never read) or the repeated OFFSET text reads as an integer too; two numbers raise exactly what the listing query raises, and only two numbers answer |
| Products.ListingBody | caching-workshop/app/models/products.py:115-137 | the undecorated listing raises only TypeError, ZeroDivisionError, OverflowError or IntegrityError |
| Products.ListingMatchesLocal | caching-workshop/app/models/products.py:8-137 | with int arguments, positional or by keyword, the decorated listing's body answers the JSON of the in-process listing's query, errors included |
| Products.SpellingsHaveOwnKeys | caching-workshop/app/models/products.py:114-115 | the three spellings of one listing call are cached under three different keys |
| Products.FirstPageTextSizeRefused | caching-workshop/app/models/products.py:118-125 | on page 1 a str per_page makes the offset the empty text, which SQLite refuses with IntegrityError, except for a per_page that reads as 0 ("0", "00", "+0", "-0"), whose LIMIT 0 skips the offset so that `total + per_page` raises TypeError |
| Products.GetProductsRedis | caching-workshop/app/models/products.py:114-137 | a hit answers the decoded stored text and makes no call; a miss makes one call, answers the listing's outcome as the decorator passes it on (`MissResult`), and stores it for 30 s when it and SETEX succeed |
| Products.GetWithStampedeProtection | caching-workshop/app/models/products.py:139-165 | the producer runs at most once; a hit answers the decoded text and writes nothing; when it runs, the lock is released, the producer's outcome is answered as `MissResult`, the encoded result is stored when SETEX succeeds, and no other key changes; a refused EXPIRE raises ResponseError without running the producer and leaves the lock held with no expiry; a lock held with no expiry makes every call time out without running the producer or writing |
| Products.ProduceUnderLock | caching-workshop/app/models/products.py:152-161 | the lock holder's EXPIRE runs before the `try`: when the server refuses the lock timeout it raises ResponseError, the producer does not run and the lock stays with no expiry; otherwise the producer runs once, the lock is released and only the data key is written |
| Products.Contribution | caching-workshop/app/models/products.py:180-188 | each id adds at most one product; a miss whose row is missing adds nothing, and one whose row exists adds it when SETEX accepts 60 s and otherwise raises ResponseError |
| Products.GatherOk | caching-workshop/app/models/products.py:178-190 | the batch answers exactly when no id fails (no cached text fails to decode and no write-back is refused), and then with at most one product per id |
| Products.WriteBack | caching-workshop/app/models/products.py:182-187 | an id that hit, or whose row is missing, or whose SETEX is refused, writes nothing |
| Products.WriteBackStores | caching-workshop/app/models/products.py:184-187 | one id's write-back touches only its own key, and leaves there a text that `json.loads` reads back as the row |
| Products.FilledTouchesOnlyBatchKeys | caching-workshop/app/models/products.py:178-188 | the batch writes no key but the product keys of its ids |
| Products.PipelineGet | caching-workshop/app/models/products.py:169-176 | the pipelined GETs answer, in order, what GET answers for each id's key, and write nothing |
| Products.FetchOne | caching-workshop/app/models/products.py:180-188 | one id's step adds its contribution and writes back a found row for 60 s, or raises ResponseError when SETEX refuses 60 s |
| Products.GetMultipleProducts | caching-workshop/app/models/products.py:167-190 | the batch answers the ids' contributions in order (or the first error: a text that fails to decode, or a refused SETEX) and writes back exactly the found misses up to that point |
| Products.WalkBatch | caching-workshop/app/models/products.py:178-190 | the walk over the pipeline's answers builds that answer and those writes |
| Products.WalkStep | caching-workshop/app/models/products.py:179-188 | each id either ends the walk with the batch's error and final store, or carries the answer and the writes to the next id |
| Products.FilledLookup | caching-workshop/app/models/products.py:187 | after a batch without failure, an id's key holds its written-back row if it missed and exists, and what it held before otherwise |
| Products.SecondBatchAgrees | caching-workshop/app/models/products.py:167-190 | repeating a successful batch at the same moment answers the same products |
| Products.ClauseText | caching-workshop/app/models/products.py:200-206 | each `column = ?` text holds exactly one placeholder |
| Products.Assignments | caching-workshop/app/models/products.py:199-207 | one assignment per field given, in the order name, price, description, each with its value |
| Products.SetClauses | caching-workshop/app/models/products.py:196-207 | the collected texts and values are those of the given fields, in order |
| Products.JoinedPlaceholders | caching-workshop/app/models/products.py:212 | joining one-placeholder clauses with ", " keeps one placeholder each |
| Products.UpdateSql | caching-workshop/app/models/products.py:212 | with one placeholder in each clause, the UPDATE text holds one per clause plus the one for the id |
| Products.PlaceholdersMatchParams | caching-workshop/app/models/products.py:199-214 | the executed UPDATE has exactly as many placeholders as parameters |
| Products.FindAfterUpdate | caching-workshop/app/models/products.py:212-215 | after the UPDATE, the product reads as its old row with the given fields replaced, a missing one stays missing, and every other product reads as before |
| Products.UpdateProduct | caching-workshop/app/models/products.py:192-228 | with no field given it answers false and changes nothing; an id or price outside 64 bits raises OverflowError and changes nothing; otherwise it runs the UPDATE with matching parameters and removes the product key and every live listing key, so that neither the product nor any listing call is still cached |
| Products.UpdateThenList | caching-workshop/app/models/products.py:192-228 | right after a successful update, the decorated listing makes one call and answers, as the decorator passes it on (`MissResult`), the listing of the updated table for any arguments; an update that answers false or raises leaves the table as it was |

## Left out

- Floating point: prices are whole numbers, and JSON floats (fractions, exponents) are not encoded or decoded.
- Timings: `query_time`, the benchmark's `uncached_time`, `cached_time` and `speedup_factor`, and `time.sleep(0.5)` in `get_product_by_id`. The clock is a parameter.
- Logging: the `print` calls.
- The `created_at` column: it is not part of `Product`.
- Database I/O: connections, commits and SQL parsing. A statement is modelled by its text and parameters, and its effect by `ApplyUpdate`.
- Products.LocalCache.GetProducts: `get_products` is modelled for int `page` and `per_page`. In Python a str or None `page` raises TypeError at line 28, and a str `per_page` reaches SQLite as the decorated listing's does (`ListingQuery` models that case).
- Products.ListingQuery: SQLite's conversion of a bound text to an integer is modelled as an optional sign and digits within 64 bits; texts it also accepts (surrounding spaces, "5.0", "1e3") are treated as a datatype mismatch, and the memory a huge repeated text needs is not modelled.
- Products.Contribution: `get_product_from_db` is not defined in the source; it is read as the by-id lookup without its 64-bit binding, so an id outside 64 bits does not raise in the batch.
- Products.GetWithStampedeProtection: the source retries without bound while the lock is held. The model takes a retry budget and answers `LockTimeout` when the budget runs out.
- Python's recursion limit: `fibonacci_uncached` and `fibonacci_cached` (with a cold memo) raise RecursionError for n beyond about 1000, and so does the stampede retry at products.py:165 after about 1000 waits. Calculator.FibCached and Calculator.FibUncached state their results for every n, which holds only in the model; Products.GetWithStampedeProtection's budget stands in for the unbounded recursion.
- Concurrency: other clients acting between SETNX and EXPIRE, or during the producer's run. The model is one client against the server.
- `lru_cache` internals beyond the memo and the recency order (locking, statistics, `cache_clear`).
- Calculator.BenchmarkFibonacci: the model threads the memo as a value, not as the hidden state of a decorated function.
- Python `repr`: non-ASCII characters are all treated as printable.
- Python values: arguments are limited to None, bool, int and str.
- JSON objects are ordered member lists: a duplicate key is kept, where Python's dict keeps only the last value.
- JSON strings: a lone surrogate escape is rejected by the decoder, where Python accepts it.
- `update_product` leaves the in-process `_cache` alone, as the source does: a page or product cached there stays until its time to live runs out.
- The Flask and Django applications (`app.py`, `database.py`, `caching_demo/`): they are not part of this model.
