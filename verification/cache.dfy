/**
 * The in-memory branch of the cache utilities: a map from key to the
 * serialised value and its expiry time, read and written against an
 * explicit clock (milliseconds), plus the cache-key builders.
 */
module Cache {
  import opened Wrappers
  import opened Text
  import Base64

  /** A cached value (its JSON text) and the instant it stops being served. */
  datatype Entry = Entry(data: string, expires: int)

  /** The default time to live, in seconds. */
  const DefaultTtl := 300

  /** What `get(key)` answers at `now`: the value while its expiry is still ahead. */
  function Lookup(entries: map<string, Entry>, key: string, now: int): (r: Option<string>)
    ensures r.Some? <==> key in entries && entries[key].expires > now
    ensures r.Some? ==> r.value == entries[key].data
  {
    if key in entries && entries[key].expires > now then Some(entries[key].data) else None
  }

  /** The entry `set(key, data, ttl)` stores at `now`. */
  function Stored(data: string, ttl: Option<int>, now: int): (e: Entry)
    ensures e.data == data
    ensures e.expires == now + ttl.GetOr(DefaultTtl) * 1000
  {
    Entry(data, now + ttl.GetOr(DefaultTtl) * 1000)
  }

  /** The map after `get(key)` at `now`: an expired entry for that key is dropped. */
  function AfterGet(entries: map<string, Entry>, key: string, now: int): (r: map<string, Entry>)
    ensures key in entries && entries[key].expires <= now ==> r == entries - {key}
    ensures !(key in entries && entries[key].expires <= now) ==> r == entries
  {
    if key in entries && entries[key].expires <= now then entries - {key} else entries
  }

  class MemoryCache {
    var entries: map<string, Entry>

    constructor ()
      ensures entries == map[]
    {
      entries := map[];
    }

    /** `set(key, value, ttl)`: overwrites the key's entry and no other. */
    method Set(key: string, data: string, ttl: Option<int>, now: int)
      modifies this
      ensures entries == old(entries)[key := Stored(data, ttl, now)]
    {
      entries := entries[key := Stored(data, ttl, now)];
    }

    /** `get(key)`: the live value, or nothing; an expired entry is deleted on the way. */
    method Get(key: string, now: int) returns (r: Option<string>)
      modifies this
      ensures r == Lookup(old(entries), key, now)
      ensures entries == AfterGet(old(entries), key, now)
    {
      if key in entries && entries[key].expires > now {
        r := Some(entries[key].data);
      } else {
        if key in entries {
          entries := entries - {key};
        }
        r := None;
      }
    }

    /** `del(key)` */
    method Del(key: string)
      modifies this
      ensures entries == old(entries) - {key}
    {
      entries := entries - {key};
    }

    /** `clear()` */
    method Clear()
      modifies this
      ensures entries == map[]
    {
      entries := map[];
    }
  }

  /**
   * A value set at `now` is served until its time to live has passed, and
   * not from then on.
   */
  lemma SetThenGet(entries: map<string, Entry>, key: string, data: string, ttl: Option<int>, now: int, t: int)
    ensures Lookup(entries[key := Stored(data, ttl, now)], key, t) ==
      if t < now + ttl.GetOr(DefaultTtl) * 1000 then Some(data) else None
  {
  }

  /** Setting, deleting and evicting one key leaves every other key's answer as it was. */
  lemma OtherKeysUnaffected(entries: map<string, Entry>, key: string, other: string, e: Entry, now: int, t: int)
    requires other != key
    ensures Lookup(entries[key := e], other, t) == Lookup(entries, other, t)
    ensures Lookup(entries - {key}, other, t) == Lookup(entries, other, t)
    ensures Lookup(AfterGet(entries, key, now), other, t) == Lookup(entries, other, t)
  {
  }

  /**
   * The deletion `get` performs is invisible: at that instant or later every
   * key answers as it did before.
   */
  lemma EvictionInvisible(entries: map<string, Entry>, key: string, k: string, now: int, t: int)
    requires now <= t
    ensures Lookup(AfterGet(entries, key, now), k, t) == Lookup(entries, k, t)
  {
  }

  /** After `del(key)` or `clear()` the key answers nothing. */
  lemma DeletedKeysAnswerNothing(entries: map<string, Entry>, key: string, t: int)
    ensures Lookup(entries - {key}, key, t).None?
    ensures Lookup(map[], key, t).None?
  {
  }

  // ---------------------------------------------------------------------
  // Key builders

  /**
   * `keys.products(page, limit, filters)`, each argument as its template
   * rendering, `None` when undefined (defaults 1, 10 and "").
   */
  function ProductsKey(page: Option<string>, limit: Option<string>, filters: Option<string>): (k: string)
    ensures |k| >= 11 + |filters.GetOr("")| && k[..9] == "products:"
    ensures k[|k| - |filters.GetOr("")|..] == filters.GetOr("")
    ensures page.None? && limit.None? ==> |k| >= 14 && k[..14] == "products:1:10:"
  {
    "products:" + page.GetOr("1") + ":" + limit.GetOr("10") + ":" + filters.GetOr("")
  }

  /** The index of the first `:` in `s`, or `|s|` when there is none. */
  function ColonIndex(s: string): (n: nat)
    ensures n <= |s|
  {
    if s == [] || s[0] == ':' then 0 else 1 + ColonIndex(s[1..])
  }

  lemma {:induction false} ColonIndexAfter(a: string, r: string)
    requires Free(a, ':')
    ensures ColonIndex(a + ":" + r) == |a|
  {
    if a != [] {
      assert (a + ":" + r)[1..] == a[1..] + ":" + r;
      ColonIndexAfter(a[1..], r);
    }
  }

  /** Splitting at the first `:` recovers the part before it and the rest. */
  lemma SplitAtColon(a: string, r: string, b: string, q: string)
    requires Free(a, ':') && Free(b, ':')
    requires a + ":" + r == b + ":" + q
    ensures a == b && r == q
  {
    var x := a + ":" + r;
    ColonIndexAfter(a, r);
    ColonIndexAfter(b, q);
    assert a == x[..|a|] && r == x[|a| + 1..];
    assert b == x[..|b|] && q == x[|b| + 1..];
  }

  /**
   * Products keys are told apart when page and limit contain no `:`: equal
   * keys come from the same page, limit and filters.
   */
  lemma ProductsKeyInjective(p1: string, l1: string, f1: string, p2: string, l2: string, f2: string)
    requires Free(p1, ':') && Free(l1, ':') && Free(p2, ':') && Free(l2, ':')
    requires ProductsKey(Some(p1), Some(l1), Some(f1)) == ProductsKey(Some(p2), Some(l2), Some(f2))
    ensures p1 == p2 && l1 == l2 && f1 == f2
  {
    ProductsKeyParts(p1, l1, f1);
    ProductsKeyParts(p2, l2, f2);
    SamePrefixSameRest("products:", p1 + ":" + (l1 + ":" + f1), p2 + ":" + (l2 + ":" + f2));
    SplitAtColon(p1, l1 + ":" + f1, p2, l2 + ":" + f2);
    SplitAtColon(l1, f1, l2, f2);
  }

  /** A products key is the prefix, then the page, limit and filters separated by `:`. */
  lemma ProductsKeyParts(p: string, l: string, f: string)
    ensures ProductsKey(Some(p), Some(l), Some(f)) == "products:" + (p + ":" + (l + ":" + f))
  {
  }

  /**
   * An absent page and limit render as `1` and `10`, so such a request shares
   * its cache entry with an explicit first page of ten.
   */
  lemma ProductsKeyDefaults(filters: Option<string>)
    ensures ProductsKey(None, None, filters) == ProductsKey(Some("1"), Some("10"), filters)
    ensures ProductsKey(None, None, filters) == "products:1:10:" + filters.GetOr("")
  {
  }

  lemma SamePrefixSameRest(pre: string, a: string, b: string)
    requires pre + a == pre + b
    ensures a == b
  {
    assert a == (pre + a)[|pre|..];
    assert b == (pre + b)[|pre|..];
  }

  /** A `:` inside the page value makes two different requests share a key. */
  lemma ProductsKeyColonCollision()
    ensures ProductsKey(Some("1:2"), Some("3"), None) == ProductsKey(Some("1"), Some("2:3"), None)
  {
  }

  /** `keys.userSession(userId)` */
  function SessionKey(userId: int): (k: string)
    ensures |k| > 8 && k[..8] == "session:" && k[8..] == IntToString(userId)
  {
    "session:" + IntToString(userId)
  }

  lemma SessionKeyInjective(a: int, b: int)
    requires SessionKey(a) == SessionKey(b)
    ensures a == b
  {
    IntToStringInjective(a, b);
  }

  /** `keys.search(query)`, given the bytes of the query's UTF-8 encoding. */
  function SearchKey(queryUtf8: seq<Base64.Byte>): (k: string)
    ensures |k| >= 7 && k[..7] == "search:" && k[7..] == Base64.Encode(queryUtf8)
  {
    "search:" + Base64.Encode(queryUtf8)
  }

  /** Different queries get different search keys, and the key reads back to its query. */
  lemma SearchKeyReadsBack(q1: seq<Base64.Byte>, q2: seq<Base64.Byte>)
    ensures Base64.Decode(SearchKey(q1)[7..]) == Some(q1)
    ensures SearchKey(q1) == SearchKey(q2) ==> q1 == q2
  {
    Base64.RoundTrip(q1);
    if SearchKey(q1) == SearchKey(q2) {
      assert SearchKey(q1)[7..] == SearchKey(q2)[7..];
      Base64.EncodeInjective(q1, q2);
    }
  }
}
