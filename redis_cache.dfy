/**
 * The `redis_cache(key_prefix, ttl)` decorator: a read-through cache in
 * front of a function. The key is the prefix, the `str()` of the positional
 * arguments and the `str()` of the keyword arguments, joined by colons; a
 * hit answers `json.loads` of the stored text without calling the function,
 * a miss calls it once and stores `json.dumps` of its result with SETEX.
 */
module RedisCache {
  import opened Wrappers
  import opened Strings
  import opened Decimal
  import opened Json
  import opened KvStore

  /** The Python values the model passes as call arguments. */
  datatype PyValue = PyNone | PyBool(b: bool) | PyInt(i: int) | PyStr(s: string)

  /** A decorated function: it maps its positional and keyword arguments to a JSON-serialisable result or raises. */
  type PyFunction = (seq<PyValue>, seq<(string, PyValue)>) -> Result<Json, Exception>

  /** The quote `repr` puts around a string: double quotes only when the text has a single quote and no double quote. */
  function ReprQuote(s: string): (q: char)
    ensures q == '"' || q == '\''
  {
    if '\'' in s && '"' !in s then '"' else '\''
  }

  /** One character of a string `repr` with quote `q`. Characters beyond ASCII are treated as printable. */
  function ReprChar(c: char, q: char): (r: string)
    ensures |r| >= 1 && (r[0] == '\\' || r == [c])
    ensures (q == '"' || q == '\'') ==> r[0] != q
  {
    if c == q || c == '\\' then ['\\', c]
    else if c == '\t' then "\\t"
    else if c == '\n' then "\\n"
    else if c == '\r' then "\\r"
    else if c < ' ' || c as int == 0x7f then "\\x" + HexDigits(c as nat, 2)
    else [c]
  }

  function ReprChars(s: string, q: char): string {
    if s == [] then [] else ReprChar(s[0], q) + ReprChars(s[1..], q)
  }

  /** `repr` of a str. */
  function ReprStr(s: string): (r: string)
    ensures |r| >= 2 && r[0] == r[|r| - 1] == ReprQuote(s)
  {
    var q := ReprQuote(s);
    [q] + ReprChars(s, q) + [q]
  }

  /** `repr` of an argument value; it never starts with a separator or a closing bracket. */
  function Repr(v: PyValue): (r: string)
    ensures |r| >= 1 && r[0] != ',' && r[0] != ')' && r[0] != '}' && r[0] != ':'
  {
    match v
    case PyNone => "None"
    case PyBool(b) => if b then "True" else "False"
    case PyInt(i) => IntToString(i)
    case PyStr(s) => ReprStr(s)
  }

  /** `", ".join(repr(v) for v in vs)`, the items of a tuple. */
  function ReprItems(vs: seq<PyValue>): (r: string)
    ensures vs != [] ==> |r| >= 1 && r[0] == Repr(vs[0])[0]
  {
    if vs == [] then ""
    else if |vs| == 1 then Repr(vs[0])
    else Repr(vs[0]) + ", " + ReprItems(vs[1..])
  }

  /** `str(args)` for the tuple of positional arguments: a one-element tuple keeps its trailing comma. */
  function ReprTuple(args: seq<PyValue>): (r: string)
    ensures |r| >= 2 && r[0] == '(' && r[|r| - 1] == ')'
  {
    if |args| == 1 then "(" + Repr(args[0]) + ",)"
    else "(" + ReprItems(args) + ")"
  }

  /** One `'name': value` member of a dict repr. */
  function ReprMember(m: (string, PyValue)): (r: string)
    ensures |r| >= 1 && r[0] == ReprQuote(m.0)
  {
    ReprStr(m.0) + ": " + Repr(m.1)
  }

  /** `", ".join` of the members, in the order the keyword arguments were passed. */
  function ReprMembers(kwargs: seq<(string, PyValue)>): (r: string)
    ensures kwargs != [] ==> |r| >= 1 && r[0] == ReprQuote(kwargs[0].0)
  {
    if kwargs == [] then ""
    else if |kwargs| == 1 then ReprMember(kwargs[0])
    else ReprMember(kwargs[0]) + ", " + ReprMembers(kwargs[1..])
  }

  /** `str(kwargs)` for the keyword arguments. */
  function ReprDict(kwargs: seq<(string, PyValue)>): (r: string)
    ensures |r| >= 2 && r[0] == '{' && r[|r| - 1] == '}'
  {
    "{" + ReprMembers(kwargs) + "}"
  }

  /** The decorator's cache key; every key of a decorated function starts with its prefix and a colon. */
  function CacheKey(prefix: string, args: seq<PyValue>, kwargs: seq<(string, PyValue)>): (k: string)
    ensures HasPrefix(k, prefix + ":")
  {
    var k := prefix + ":" + ReprTuple(args) + ":" + ReprDict(kwargs);
    assert k == (prefix + ":") + (ReprTuple(args) + ":" + ReprDict(kwargs));
    PrefixOfConcat(prefix + ":", ReprTuple(args) + ":" + ReprDict(kwargs));
    k
  }

  // ---------------------------------------------------------------------
  // Distinct calls get distinct keys

  /** Two texts of the same length in front of the rest split the same way. */
  lemma SplitAt(x: string, s: string, y: string, t: string)
    requires x + s == y + t && |x| == |y|
    ensures x == y && s == t
  {
    assert x == (x + s)[..|x|] == (y + t)[..|y|] == y;
    assert s == (x + s)[|x|..] == (y + t)[|y|..] == t;
  }

  /** The escapes `repr` writes form a prefix code: the text of the first character determines it. */
  lemma ReprCharUnique(c: char, d: char, q: char, s: string, t: string)
    requires q == '"' || q == '\''
    requires ReprChar(c, q) + s == ReprChar(d, q) + t
    ensures c == d && s == t
  {
    var x, y := ReprChar(c, q), ReprChar(d, q);
    assert x[0] == (x + s)[0] == (y + t)[0] == y[0];
    if x[0] == '\\' {
      assert x[1] == (x + s)[1] == (y + t)[1] == y[1];
      if x[1] == 'x' {
        assert x == "\\x" + HexDigits(c as nat, 2) && y == "\\x" + HexDigits(d as nat, 2);
        SplitAt(x, s, y, t);
        assert HexDigits(c as nat, 2) == x[2..] == y[2..] == HexDigits(d as nat, 2);
        assert Pow16(2) == 256;
        HexRoundTrip(c as nat, 2);
        HexRoundTrip(d as nat, 2);
      } else {
        assert |x| == 2 == |y|;
        SplitAt(x, s, y, t);
      }
    } else {
      SplitAt(x, s, y, t);
    }
  }

  /** The body of a str repr ends at the first unescaped quote. */
  lemma {:induction false} ReprCharsUnique(s1: string, s2: string, q: char, t1: string, t2: string)
    requires q == '"' || q == '\''
    requires ReprChars(s1, q) + ([q] + t1) == ReprChars(s2, q) + ([q] + t2)
    ensures s1 == s2 && t1 == t2
    decreases |s1|
  {
    ReprCharsFirst(s1, q, t1);
    ReprCharsFirst(s2, q, t2);
    if s1 == [] && s2 == [] {
      SplitAt([q], t1, [q], t2);
    } else if s1 != [] && s2 != [] {
      ReprCharUnique(s1[0], s2[0], q, ReprChars(s1[1..], q) + ([q] + t1), ReprChars(s2[1..], q) + ([q] + t2));
      ReprCharsUnique(s1[1..], s2[1..], q, t1, t2);
      assert s1 == [s1[0]] + s1[1..] && s2 == [s2[0]] + s2[1..];
    }
  }

  /** The text of a str repr body and its closing quote, split at its first character. */
  lemma ReprCharsFirst(s: string, q: char, t: string)
    ensures s == [] ==> ReprChars(s, q) + ([q] + t) == [q] + t
    ensures s != [] ==> ReprChars(s, q) + ([q] + t) == ReprChar(s[0], q) + (ReprChars(s[1..], q) + ([q] + t))
    ensures (q == '"' || q == '\'') ==> ((ReprChars(s, q) + ([q] + t))[0] == q <==> s == [])
  {
    if s == [] {
      assert ReprChars(s, q) == [];
    } else {
      var x := ReprChar(s[0], q);
      var rest := ReprChars(s[1..], q) + ([q] + t);
      Regroup3(x, ReprChars(s[1..], q), [q] + t);
      assert (x + rest)[0] == x[0];
    }
  }

  /** A str repr is self-delimiting: whatever follows it, it can be read back only one way. */
  lemma ReprStrUnique(s1: string, t1: string, s2: string, t2: string)
    requires ReprStr(s1) + t1 == ReprStr(s2) + t2
    ensures s1 == s2 && t1 == t2
  {
    var q := ReprQuote(s1);
    assert q == (ReprStr(s1) + t1)[0] == (ReprStr(s2) + t2)[0] == ReprQuote(s2);
    Regroup4([q], ReprChars(s1, q), [q], t1);
    Regroup4([q], ReprChars(s2, q), [q], t2);
    SplitAt([q], ReprChars(s1, q) + ([q] + t1), [q], ReprChars(s2, q) + ([q] + t2));
    ReprCharsUnique(s1, s2, q, t1, t2);
  }

  /** What may follow an argument's repr inside a key: a separator or a closing bracket. */
  predicate Closes(t: string) {
    t != [] && (t[0] == ',' || t[0] == ')' || t[0] == '}' || t[0] == ':')
  }

  /** An argument's repr followed by a separator or a closing bracket can be read back only one way. */
  lemma ReprUnique(v1: PyValue, t1: string, v2: PyValue, t2: string)
    requires Closes(t1) && Closes(t2)
    requires Repr(v1) + t1 == Repr(v2) + t2
    ensures v1 == v2 && t1 == t2
  {
    var x, y := Repr(v1), Repr(v2);
    assert x[0] == (x + t1)[0] == (y + t2)[0] == y[0];
    match v1
    case PyInt(a) =>
      assert !IsDigit(t1[0]);
      if v2.PyInt? {
        assert !IsDigit(t2[0]);
        IntThenNonDigit(a, t1, v2.i, t2);
      }
    case PyStr(s) =>
      if v2.PyStr? {
        ReprStrUnique(s, t1, v2.s, t2);
      }
    case _ =>
      assert |x| == |y|;
      SplitAt(x, t1, y, t2);
  }

  /** The items of a tuple, followed by a closing bracket, can be read back only one way. */
  lemma {:induction false} ReprItemsUnique(vs1: seq<PyValue>, u1: string, vs2: seq<PyValue>, u2: string)
    requires vs1 != [] && vs2 != []
    requires u1 != [] && u2 != [] && (u1[0] == ')' || u1[0] == '}') && (u2[0] == ')' || u2[0] == '}')
    requires ReprItems(vs1) + u1 == ReprItems(vs2) + u2
    ensures vs1 == vs2 && u1 == u2
    decreases |vs1|
  {
    ReprItemsFirst(vs1, u1);
    ReprItemsFirst(vs2, u2);
    if |vs1| == 1 && |vs2| == 1 {
      ReprUnique(vs1[0], u1, vs2[0], u2);
    } else if |vs1| > 1 && |vs2| > 1 {
      var r1, r2 := ReprItems(vs1[1..]) + u1, ReprItems(vs2[1..]) + u2;
      ReprUnique(vs1[0], ", " + r1, vs2[0], ", " + r2);
      SplitAt(", ", r1, ", ", r2);
      ReprItemsUnique(vs1[1..], u1, vs2[1..], u2);
      SameHeadSameTail(vs1, vs2);
    } else if |vs1| == 1 {
      ReprUnique(vs1[0], u1, vs2[0], ", " + (ReprItems(vs2[1..]) + u2));
    } else {
      ReprUnique(vs1[0], ", " + (ReprItems(vs1[1..]) + u1), vs2[0], u2);
    }
  }

  /** The items of a tuple and what follows them, split after the first item. */
  lemma ReprItemsFirst(vs: seq<PyValue>, u: string)
    requires vs != []
    ensures |vs| == 1 ==> ReprItems(vs) + u == Repr(vs[0]) + u
    ensures |vs| > 1 ==> ReprItems(vs) + u == Repr(vs[0]) + (", " + (ReprItems(vs[1..]) + u))
  {
    if |vs| > 1 {
      Regroup4(Repr(vs[0]), ", ", ReprItems(vs[1..]), u);
    }
  }

  /** `str(args)` and what follows it, split after the opening parenthesis. */
  lemma ReprTupleFirst(a: seq<PyValue>, t: string)
    ensures a == [] ==> ReprTuple(a) + t == "(" + (")" + t)
    ensures |a| == 1 ==> ReprTuple(a) + t == "(" + (Repr(a[0]) + (",)" + t))
    ensures |a| > 1 ==> ReprTuple(a) + t == "(" + (ReprItems(a) + (")" + t))
  {
    if a == [] {
      EmptyTupleText(a, t);
    } else if |a| == 1 {
      SingleTupleText(a, t);
    } else {
      Regroup4("(", ReprItems(a), ")", t);
    }
  }

  lemma EmptyTupleText(a: seq<PyValue>, t: string)
    requires a == []
    ensures ReprTuple(a) + t == "(" + (")" + t)
  {
    assert ReprItems(a) == "";
    Regroup4("(", "", ")", t);
  }

  lemma SingleTupleText(a: seq<PyValue>, t: string)
    requires |a| == 1
    ensures ReprTuple(a) + t == "(" + (Repr(a[0]) + (",)" + t))
  {
    Regroup4("(", Repr(a[0]), ",)", t);
  }

  /** `str(args)` followed by the colon of the key can be read back only one way. */
  lemma ReprTupleUnique(a1: seq<PyValue>, t1: string, a2: seq<PyValue>, t2: string)
    requires t1 != [] && t2 != [] && t1[0] == ':' && t2[0] == ':'
    requires ReprTuple(a1) + t1 == ReprTuple(a2) + t2
    ensures a1 == a2 && t1 == t2
  {
    ReprTupleFirst(a1, t1);
    ReprTupleFirst(a2, t2);
    var b1 := (ReprTuple(a1) + t1)[1..];
    var b2 := (ReprTuple(a2) + t2)[1..];
    assert b1 == b2;
    if a1 == [] && a2 == [] {
      SplitAt(")", t1, ")", t2);
    } else if a1 == [] {
      TupleBodyStart(a2, t2);
    } else if a2 == [] {
      TupleBodyStart(a1, t1);
    } else if |a1| == 1 && |a2| == 1 {
      ReprUnique(a1[0], ",)" + t1, a2[0], ",)" + t2);
      SplitAt(",)", t1, ",)", t2);
    } else if |a1| > 1 && |a2| > 1 {
      ReprItemsUnique(a1, ")" + t1, a2, ")" + t2);
      SplitAt(")", t1, ")", t2);
    } else if |a1| == 1 {
      OneItemNotMore(a1, t1, a2, t2);
    } else {
      OneItemNotMore(a2, t2, a1, t1);
    }
  }

  /** A one-element tuple's text never continues like the text of a longer tuple. */
  lemma OneItemNotMore(a1: seq<PyValue>, t1: string, a2: seq<PyValue>, t2: string)
    requires |a1| == 1 && |a2| > 1
    ensures ReprTuple(a1) + t1 != ReprTuple(a2) + t2
  {
    ReprTupleFirst(a1, t1);
    ReprTupleFirst(a2, t2);
    ReprItemsFirst(a2, ")" + t2);
    var r1, r2 := ",)" + t1, ", " + (ReprItems(a2[1..]) + (")" + t2));
    assert r1[1] == ')' && r2[1] == ' ';
    if ReprTuple(a1) + t1 == ReprTuple(a2) + t2 {
      SplitAt("(", Repr(a1[0]) + r1, "(", Repr(a2[0]) + r2);
      ReprUnique(a1[0], r1, a2[0], r2);
      assert false;
    }
  }

  /** A non-empty tuple's body starts with its first item's repr, never with the closing parenthesis. */
  lemma TupleBodyStart(a: seq<PyValue>, t: string)
    requires a != []
    ensures (ReprTuple(a) + t)[1] == Repr(a[0])[0] != ')'
  {
    ReprTupleFirst(a, t);
  }

  /** The members of a dict, followed by its closing brace, can be read back only one way. */
  lemma {:induction false} ReprMembersUnique(ms1: seq<(string, PyValue)>, ms2: seq<(string, PyValue)>)
    requires ms1 != [] && ms2 != []
    requires ReprMembers(ms1) + "}" == ReprMembers(ms2) + "}"
    ensures ms1 == ms2
    decreases |ms1|
  {
    if |ms1| == 1 && |ms2| == 1 {
      ReprMembersFirst(ms1);
      ReprMembersFirst(ms2);
      ReprMemberUnique(ms1[0], "}", ms2[0], "}");
    } else if |ms1| > 1 && |ms2| > 1 {
      FirstMemberUnique(ms1, ms2);
      ReprMembersUnique(ms1[1..], ms2[1..]);
      SameHeadSameTail(ms1, ms2);
    } else if |ms1| == 1 {
      OneMemberNotMore(ms1, ms2);
    } else {
      OneMemberNotMore(ms2, ms1);
    }
  }

  /** Two dicts of several members with the same text agree on the first member and on the text of the rest. */
  lemma FirstMemberUnique(ms1: seq<(string, PyValue)>, ms2: seq<(string, PyValue)>)
    requires |ms1| > 1 && |ms2| > 1
    requires ReprMembers(ms1) + "}" == ReprMembers(ms2) + "}"
    ensures ms1[0] == ms2[0] && ReprMembers(ms1[1..]) + "}" == ReprMembers(ms2[1..]) + "}"
  {
    ReprMembersFirst(ms1);
    ReprMembersFirst(ms2);
    var r1, r2 := ReprMembers(ms1[1..]) + "}", ReprMembers(ms2[1..]) + "}";
    ReprMemberUnique(ms1[0], ", " + r1, ms2[0], ", " + r2);
    SplitAt(", ", r1, ", ", r2);
  }

  /** A dict of one member never continues like a dict of more. */
  lemma OneMemberNotMore(ms1: seq<(string, PyValue)>, ms2: seq<(string, PyValue)>)
    requires |ms1| == 1 && |ms2| > 1
    ensures ReprMembers(ms1) + "}" != ReprMembers(ms2) + "}"
  {
    ReprMembersFirst(ms1);
    ReprMembersFirst(ms2);
    var r2 := ", " + (ReprMembers(ms2[1..]) + "}");
    assert r2[0] == ',';
    if ReprMembers(ms1) + "}" == ReprMembers(ms2) + "}" {
      ReprMemberUnique(ms1[0], "}", ms2[0], r2);
      assert false;
    }
  }

  /** The members of a dict and its closing brace, split after the first member. */
  lemma ReprMembersFirst(ms: seq<(string, PyValue)>)
    requires ms != []
    ensures |ms| == 1 ==> ReprMembers(ms) + "}" == ReprMember(ms[0]) + "}"
    ensures |ms| > 1 ==> ReprMembers(ms) + "}" == ReprMember(ms[0]) + (", " + (ReprMembers(ms[1..]) + "}"))
  {
    if |ms| > 1 {
      Regroup4(ReprMember(ms[0]), ", ", ReprMembers(ms[1..]), "}");
    }
  }

  /** One member followed by a separator or the closing brace can be read back only one way. */
  lemma ReprMemberUnique(m1: (string, PyValue), r1: string, m2: (string, PyValue), r2: string)
    requires Closes(r1) && Closes(r2)
    requires ReprMember(m1) + r1 == ReprMember(m2) + r2
    ensures m1 == m2 && r1 == r2
  {
    var x1, x2 := ": " + (Repr(m1.1) + r1), ": " + (Repr(m2.1) + r2);
    Regroup4(ReprStr(m1.0), ": ", Repr(m1.1), r1);
    Regroup4(ReprStr(m2.0), ": ", Repr(m2.1), r2);
    ReprStrUnique(m1.0, x1, m2.0, x2);
    SplitAt(": ", Repr(m1.1) + r1, ": ", Repr(m2.1) + r2);
    ReprUnique(m1.1, r1, m2.1, r2);
  }

  /** Different keyword arguments give different `str(kwargs)`. */
  lemma ReprDictInjective(k1: seq<(string, PyValue)>, k2: seq<(string, PyValue)>)
    requires ReprDict(k1) == ReprDict(k2)
    ensures k1 == k2
  {
    assert ReprDict(k1) == "{" + (ReprMembers(k1) + "}") && ReprDict(k2) == "{" + (ReprMembers(k2) + "}");
    SplitAt("{", ReprMembers(k1) + "}", "{", ReprMembers(k2) + "}");
    if k1 != [] && k2 != [] {
      ReprMembersUnique(k1, k2);
    }
  }

  /**
   * Calls of a decorated function with different positional or keyword
   * arguments never share a cache entry.
   */
  lemma CacheKeyInjective(prefix: string, a1: seq<PyValue>, k1: seq<(string, PyValue)>,
                          a2: seq<PyValue>, k2: seq<(string, PyValue)>)
    requires CacheKey(prefix, a1, k1) == CacheKey(prefix, a2, k2)
    ensures a1 == a2 && k1 == k2
  {
    var p := prefix + ":";
    Regroup4(p, ReprTuple(a1), ":", ReprDict(k1));
    Regroup4(p, ReprTuple(a2), ":", ReprDict(k2));
    SplitAt(p, ReprTuple(a1) + (":" + ReprDict(k1)), p, ReprTuple(a2) + (":" + ReprDict(k2)));
    ReprTupleUnique(a1, ":" + ReprDict(k1), a2, ":" + ReprDict(k2));
    SplitAt(":", ReprDict(k1), ":", ReprDict(k2));
    ReprDictInjective(k1, k2);
  }

  /** What a miss answers for the function's outcome `res`: the outcome itself, unless SETEX refuses the ttl at time `now`. */
  function MissResult(res: Result<Json, Exception>, ttl: int, now: int): (r: Result<Json, Exception>)
    ensures r.Ok? <==> res.Ok? && SetExAccepts(ttl, now)
    ensures r.Ok? || res.Err? ==> r == res
    ensures r.Err? && res.Ok? ==> r.error == ResponseError
  {
    if res.Ok? && !SetExAccepts(ttl, now) then Err(ResponseError) else res
  }

  /** The entries after a miss: the encoded result under the key when SETEX succeeds, otherwise unchanged. */
  function AfterMiss(entries: map<string, Entry>, clock: int, key: string, ttl: int, res: Result<Json, Exception>)
    : (m: map<string, Entry>)
    ensures forall k :: k != key ==> SameAt(entries, m, k)
    ensures MissResult(res, ttl, clock).Ok? ==> key in m && Loads(m[key].value) == res
    ensures MissResult(res, ttl, clock).Err? ==> m == entries
  {
    if res.Ok? && SetExAccepts(ttl, clock) then
      LoadsDumps(res.value);
      entries[key := Entry(Encode(res.value), Some(clock + ttl * MillisPerSecond))]
    else entries
  }

  /** A result stored on a miss is what a hit returns any time before it expires. */
  lemma StoredResultIsReturned(entries: map<string, Entry>, key: string, res: Result<Json, Exception>, ttl: int, now: int, later: int)
    requires MissResult(res, ttl, now).Ok? && now <= later <= now + ttl * MillisPerSecond
    ensures var after := AfterMiss(entries, now, key, ttl, res);
      Lookup(after, later, key).Some? && Loads(Lookup(after, later, key).value) == MissResult(res, ttl, now)
  {
    LoadsDumps(res.value);
  }

  /**
   * The wrapper around `f`: GET the key; on a hit answer the decoded text
   * and leave the store alone; on a miss call `f` once and, when it returns,
   * SETEX its encoded result under the key. `calls` is
   * not part of the Python code: the method sets it itself to the number of
   * times it called `f`, so that the contract can say when `f` runs.
   */
  method CachedCall(store: Store, prefix: string, ttl: int, f: PyFunction,
                    args: seq<PyValue>, kwargs: seq<(string, PyValue)>)
    returns (r: Result<Json, Exception>, calls: nat)
    modifies store
    ensures store.clock == old(store.clock)
    ensures var key := CacheKey(prefix, args, kwargs);
      match Lookup(old(store.entries), old(store.clock), key)
      case Some(text) =>
        calls == 0 && r == Loads(text) && store.entries == old(store.entries)
      case None =>
        && calls == 1
        && r == MissResult(f(args, kwargs), ttl, store.clock)
        && store.entries == AfterMiss(old(store.entries), store.clock, key, ttl, f(args, kwargs))
  {
    var key := CacheKey(prefix, args, kwargs);
    var cached := store.Get(key);
    if cached.Some? {
      return Loads(cached.value), 0;
    }
    var res := f(args, kwargs);
    calls := 1;
    r := StoreResult(store, key, ttl, res);
  }

  /** The miss path after the call: SETEX the encoded result, or pass an exception through untouched. */
  method StoreResult(store: Store, key: string, ttl: int, res: Result<Json, Exception>) returns (r: Result<Json, Exception>)
    modifies store
    ensures store.clock == old(store.clock)
    ensures r == MissResult(res, ttl, store.clock)
    ensures store.entries == AfterMiss(old(store.entries), store.clock, key, ttl, res)
  {
    r := res;
    if r.Ok? {
      var ok := store.SetEx(key, ttl, Encode(r.value));
      if !ok {
        r := Err(ResponseError);
      }
    }
  }

  /** Two calls with the same arguments and no time passing between them: the second is a hit with the same answer. */
  method CallTwice(store: Store, prefix: string, ttl: int, f: PyFunction,
                   args: seq<PyValue>, kwargs: seq<(string, PyValue)>)
    returns (first: Result<Json, Exception>, second: Result<Json, Exception>, calls: nat)
    modifies store
    ensures first.Ok? ==> second == first && calls <= 1
  {
    var c1, c2;
    ghost var key := CacheKey(prefix, args, kwargs);
    ghost var before := store.entries;
    first, c1 := CachedCall(store, prefix, ttl, f, args, kwargs);
    ghost var stored := Lookup(store.entries, store.clock, key);
    if first.Ok? {
      if c1 == 1 {
        StoredResultIsReturned(before, key, f(args, kwargs), ttl, store.clock, store.clock);
      }
      assert stored.Some? && Loads(stored.value) == first;
    }
    second, c2 := CachedCall(store, prefix, ttl, f, args, kwargs);
    calls := c1 + c2;
  }
}
