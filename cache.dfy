/** The `localStorage` cache of the Gemini service: entries stamped with the time they were
    written, read back only while younger than an expiry. */
module Cache {
  import opened Wrappers

  /** How old an entry may be: a number of milliseconds, or `Infinity`. */
  datatype Expiry = Within(ms: int) | Forever

  /** What a stored string parses to: an envelope `{ data, timestamp }` (the timestamp may be
      missing), or something `JSON.parse` rejects. */
  datatype Entry<T> = Envelope(data: T, timestamp: Option<int>) | Malformed

  /** `Date.now() - timestamp < expiry`; a missing timestamp gives `NaN`, which is never
      smaller than anything. */
  predicate Fresh(expiry: Expiry, now: int, timestamp: Option<int>) {
    timestamp.Some? &&
    match expiry
    case Forever => true
    case Within(ms) => now - timestamp.value < ms
  }

  /** The value `getCachedData(key, expiry)` returns at time `now`. */
  function Read<T>(items: map<string, Entry<T>>, key: string, expiry: Expiry, now: int): Option<T> {
    if key in items && items[key].Envelope? && Fresh(expiry, now, items[key].timestamp)
    then Some(items[key].data)
    else None
  }

  /** The storage after `getCachedData(key, _)`: an entry that does not parse is removed. */
  function AfterRead<T>(items: map<string, Entry<T>>, key: string): map<string, Entry<T>> {
    if key in items && items[key].Malformed? then items - {key} else items
  }

  /** `setCacheData(key, data)` at time `now`. */
  function Write<T>(items: map<string, Entry<T>>, key: string, data: T, now: int): map<string, Entry<T>> {
    items[key := Envelope(data, Some(now))]
  }

  /** A read hits exactly when the key holds a parsable envelope with a timestamp younger than
      the expiry, and then returns the stored data. */
  lemma ReadHit<T>(items: map<string, Entry<T>>, key: string, expiry: Expiry, now: int)
    ensures Read(items, key, expiry, now).Some? <==>
      key in items && items[key].Envelope? && items[key].timestamp.Some? &&
      (expiry.Within? ==> now - items[key].timestamp.value < expiry.ms)
    ensures Read(items, key, expiry, now).Some? ==> Read(items, key, expiry, now).value == items[key].data
  {
  }

  /** A read removes only its own key, and only when the stored string does not parse;
      every other key is untouched. */
  lemma AfterReadEffect<T>(items: map<string, Entry<T>>, key: string)
    ensures key in items && items[key].Malformed? ==> key !in AfterRead(items, key)
    ensures key in AfterRead(items, key) ==> AfterRead(items, key)[key] == items[key] && items[key].Envelope?
    ensures forall k :: k != key ==> (k in AfterRead(items, key) <==> k in items)
    ensures forall k :: k != key && k in items ==> AfterRead(items, key)[k] == items[k]
  {
  }

  /** Data written at `t` is read back at every time before `t + ms` and at no time from
      `t + ms` on; with an infinite expiry it is always read back. */
  lemma WriteThenRead<T>(items: map<string, Entry<T>>, key: string, data: T, t: int, ms: int, now: int)
    ensures Read(Write(items, key, data, t), key, Within(ms), now) ==
      (if now < t + ms then Some(data) else None)
    ensures Read(Write(items, key, data, t), key, Forever, now) == Some(data)
  {
  }

  /** Written at `T` with expiry `E`: still a hit at `T + E - 1`, a miss at `T + E` and at
      `T + E + 1`. */
  lemma ExpiryBoundary<T>(items: map<string, Entry<T>>, key: string, data: T, t: int, e: int)
    ensures Read(Write(items, key, data, t), key, Within(e), t + e - 1) == Some(data)
    ensures Read(Write(items, key, data, t), key, Within(e), t + e) == None
    ensures Read(Write(items, key, data, t), key, Within(e), t + e + 1) == None
  {
    WriteThenRead(items, key, data, t, e, t + e - 1);
    WriteThenRead(items, key, data, t, e, t + e);
    WriteThenRead(items, key, data, t, e, t + e + 1);
  }

  /** A hit under any finite expiry is also a hit under `Infinity`, with the same data. */
  lemma ForeverIsWeakest<T>(items: map<string, Entry<T>>, key: string, ms: int, now: int, later: int)
    requires Read(items, key, Within(ms), now).Some?
    ensures Read(items, key, Forever, later) == Read(items, key, Within(ms), now)
  {
  }

  /** The browser's `localStorage`, holding parsed entries. */
  class Storage<T> {
    var items: map<string, Entry<T>>

    constructor (items: map<string, Entry<T>>)
      ensures this.items == items
    {
      this.items := items;
    }

    /** `getCachedData(key, expiry)` at time `now`. */
    method GetCachedData(key: string, expiry: Expiry, now: int) returns (r: Option<T>)
      modifies this
      ensures r == Read(old(items), key, expiry, now)
      ensures items == AfterRead(old(items), key)
    {
      r := None;
      if key !in items {
        return;
      }
      match items[key]
      case Malformed =>
        items := items - {key};
      case Envelope(data, timestamp) =>
        if Fresh(expiry, now, timestamp) {
          r := Some(data);
        }
    }

    /** `setCacheData(key, data)` at time `now`. */
    method SetCacheData(key: string, data: T, now: int)
      modifies this
      ensures items == Write(old(items), key, data, now)
      ensures Read(items, key, Forever, now) == Some(data)
    {
      items := items[key := Envelope(data, Some(now))];
    }
  }
}
