/** The gateway's response cache: the entry table, the table of open flights, and the key they share. */
module GatewayCache {
  import opened Wrappers
  import opened GatewayCapture

  /** A cached response. `store` numbers the `set` that wrote it. */
  datatype Entry = Entry(status: int, body: string, expires: int, store: nat)

  type Entries = map<string, Entry>

  function LookupEntry(entries: Entries, key: string, now: int): Option<Entry> {
    if key in entries && now <= entries[key].expires then Some(entries[key]) else None
  }

  /** A lookup drops the entry it finds expired. */
  function AfterLookup(entries: Entries, key: string, now: int): Entries {
    if key in entries && now > entries[key].expires then entries - {key} else entries
  }

  class Flight {
    var done: bool
    var result: Response

    constructor ()
      ensures !done && result == FRESH.captured
    {
      done, result := false, FRESH.captured;
    }
  }

  class ResponseCache {
    var entries: Entries
    var flights: map<string, Flight>
    var stores: nat
    const ttl: int

    constructor (ttl: int)
      ensures entries == map[] && flights == map[] && stores == 0 && this.ttl == ttl
    {
      entries, flights, stores, this.ttl := map[], map[], 0, ttl;
    }

    method BeginFlight(key: string) returns (fl: Flight, leader: bool)
      modifies this`flights
      ensures leader <==> key !in old(flights)
      ensures leader ==> fresh(fl) && !fl.done && flights == old(flights)[key := fl]
      ensures !leader ==> fl == old(flights)[key] && flights == old(flights)
    {
      if key in flights { return flights[key], false; }
      fl := new Flight();
      flights := flights[key := fl];
      leader := true;
    }

    method FinishFlight(key: string, fl: Flight, result: Response)
      modifies this`flights, fl
      ensures fl.done && fl.result == result && flights == old(flights) - {key}
    {
      fl.result := result;
      flights := flights - {key};
      fl.done := true;
    }

    method Get(key: string, now: int) returns (r: Option<Entry>)
      modifies this`entries
      ensures r == LookupEntry(old(entries), key, now)
      ensures entries == AfterLookup(old(entries), key, now)
    {
      if key !in entries { return None; }
      var e := entries[key];
      if now > e.expires {
        entries := entries - {key};
        return None;
      }
      return Some(e);
    }

    method Set(key: string, status: int, body: string, now: int)
      modifies this`entries, this`stores
      ensures entries == old(entries)[key := Entry(status, body, now + ttl, old(stores))] && stores == old(stores) + 1
    {
      var e := Entry(status, body, now + ttl, stores);
      entries, stores := entries[key := e], stores + 1;
    }
  }

  // ----- the cache key

  function CacheKey(verb: string, path: string, query: string): string {
    verb + " " + path + "?" + query
  }

  lemma SplitAtFirst(a: string, b: string, a': string, b': string, c: char)
    requires c !in a && c !in a' && a + [c] + b == a' + [c] + b'
    ensures a == a' && b == b'
  {
    var s := a + [c] + b;
    assert s[|a|] == c && s[|a'|] == c;
    forall i | 0 <= i < |a| ensures s[i] != c { assert s[i] == a[i]; }
    forall i | 0 <= i < |a'| ensures s[i] != c { assert s[i] == a'[i]; }
    assert a == s[..|a|] == a' && b == s[|a| + 1..] == b';
  }

  lemma SplitAtLast(a: string, b: string, a': string, b': string, c: char)
    requires c !in b && c !in b' && a + [c] + b == a' + [c] + b'
    ensures a == a' && b == b'
  {
    var s := a + [c] + b;
    assert s[|a|] == c && s[|a'|] == c;
    forall i | |a| < i < |s| ensures s[i] != c { assert s[i] == b[i - |a| - 1]; }
    forall i | |a'| < i < |s| ensures s[i] != c { assert s[i] == b'[i - |a'| - 1]; }
    assert a == s[..|a|] == a' && b == s[|a| + 1..] == b';
  }

  /** Different requests have different keys, even when a decoded path contains a question mark:
      a verb holds no space and an encoded query holds no question mark. */
  lemma CacheKeyIsInjective(verb: string, path: string, query: string, verb': string, path': string, query': string)
    requires ' ' !in verb && ' ' !in verb' && '?' !in query && '?' !in query'
    requires CacheKey(verb, path, query) == CacheKey(verb', path', query')
    ensures verb == verb' && path == path' && query == query'
  {
    SplitAtLast(verb + " " + path, query, verb' + " " + path', query', '?');
    SplitAtFirst(verb, path, verb', path', ' ');
  }
}
