/** The response cache: the cache key of a (session, message) pair, and the
    Redis-backed store of replies, which degrades to "miss" and "no-op" when
    Redis is not configured, cannot be reached, or fails. */
module Cache {
  import opened Wrappers
  import opened JsText
  import Utf8
  import Base64

  const KEY_PREFIX: JsString := Lit("chat:")
  const SEPARATOR: JsString := Lit(":")
  /** How many characters of the base 64 text the key keeps. */
  const FINGERPRINT_LENGTH := 50
  const DEFAULT_TTL := 3600

  /** `s.substring(0, n)`. */
  function Prefix(s: JsString, n: nat): (r: JsString)
    ensures |r| <= n && |r| <= |s| && r == s[..|r|]
    ensures |s| <= n ==> r == s
    ensures |r| == if |s| <= n then |s| else n
  {
    if |s| <= n then s else s[..n]
  }

  /** The fingerprint of a message: the first fifty characters of the base 64
      text of its UTF-8 bytes. */
  function Fingerprint(message: JsString): (f: JsString)
    ensures |f| <= FINGERPRINT_LENGTH
    ensures var e := Base64.Encode(Utf8.Encode(message));
      |f| == (if |e| <= FINGERPRINT_LENGTH then |e| else FINGERPRINT_LENGTH) && f == e[..|f|]
  {
    Prefix(Base64.Encode(Utf8.Encode(message)), FINGERPRINT_LENGTH)
  }

  /** The fingerprint is the opening of the message's base 64 text: all of
      it up to fifty characters, and exactly fifty characters for a message
      of more than thirty-six UTF-8 bytes. */
  lemma {:induction false} FingerprintIsOpening(message: JsString)
    ensures var e := Base64.Encode(Utf8.Encode(message));
      var f := Fingerprint(message);
      && |f| == (if |e| <= FINGERPRINT_LENGTH then |e| else FINGERPRINT_LENGTH)
      && f == e[..|f|]
      && (|Utf8.Encode(message)| > 36 ==> |f| == FINGERPRINT_LENGTH)
  {
    Base64.EncodeLength(Utf8.Encode(message));
  }

  /** The fingerprint holds only base 64 characters, so no ':'. */
  lemma {:induction false} FingerprintHasNoColon(message: JsString)
    ensures NoColon(Fingerprint(message))
  {
    var e := Base64.Encode(Utf8.Encode(message));
    Base64.EncodedChars(Utf8.Encode(message));
    var f := Fingerprint(message);
    forall i | 0 <= i < |f| ensures f[i] != 0x3A {
      assert f[i] == e[i];
      assert Base64.IsEncodedChar(e[i]);
    }
  }

  /** `generateCacheKey`. */
  function CacheKey(sessionId: JsString, message: JsString): (key: JsString)
    ensures |sessionId| + 6 <= |key| <= |sessionId| + 56
    ensures key[..|KEY_PREFIX| + |sessionId| + 1] == KEY_PREFIX + sessionId + SEPARATOR
  {
    KEY_PREFIX + sessionId + SEPARATOR + Fingerprint(message)
  }

  predicate NoColon(s: JsString) {
    forall i :: 0 <= i < |s| ==> s[i] != 0x3A
  }

  /** A text that ends with ':' and a colon-free tail is split there in one
      way only. */
  lemma {:induction false} SplitAtLastColon(a1: JsString, f1: JsString, a2: JsString, f2: JsString)
    requires NoColon(f1) && NoColon(f2)
    requires a1 + [0x3A] + f1 == a2 + [0x3A] + f2
    ensures a1 == a2 && f1 == f2
  {
    var k := a1 + [0x3A] + f1;
    assert k[|a1|] == 0x3A;
    assert k[|a2|] == (a2 + [0x3A] + f2)[|a2|] == 0x3A;
    assert forall j :: |a1| < j < |k| ==> k[j] == f1[j - |a1| - 1];
    assert forall j :: |a2| < j < |k| ==> k[j] == (a2 + [0x3A] + f2)[j] == f2[j - |a2| - 1];
    assert |a1| == |a2|;
    assert a1 == k[..|a1|] == a2;
    assert f1 == k[|a1| + 1..] == f2;
  }

  /** A key never mixes up sessions: it names the session it was made for,
      whatever the two messages are (the fingerprint holds no ':'). */
  lemma {:induction false} KeyDeterminesSession(s1: JsString, m1: JsString, s2: JsString, m2: JsString)
    requires CacheKey(s1, m1) == CacheKey(s2, m2)
    ensures s1 == s2 && Fingerprint(m1) == Fingerprint(m2)
  {
    var f1, f2 := Fingerprint(m1), Fingerprint(m2);
    assert SEPARATOR == [0x3A];
    FingerprintHasNoColon(m1);
    FingerprintHasNoColon(m2);
    SplitAtLastColon(KEY_PREFIX + s1, f1, KEY_PREFIX + s2, f2);
    assert s1 == (KEY_PREFIX + s1)[5..] == (KEY_PREFIX + s2)[5..] == s2;
  }

  /** A message of at most thirty-six UTF-8 bytes keeps its whole base 64
      text in the key. */
  lemma {:induction false} ShortMessageKeptWhole(message: JsString)
    requires |Utf8.Encode(message)| <= 36
    ensures Fingerprint(message) == Base64.Encode(Utf8.Encode(message))
  {
    Base64.EncodeLength(Utf8.Encode(message));
  }

  /** Within one session, two different well-formed messages of at most
      thirty-six UTF-8 bytes (twelve code units always qualify) get different
      keys. */
  lemma {:induction false} DistinctShortMessagesDistinctKeys(sessionId: JsString, m1: JsString, m2: JsString)
    requires Utf8.WellFormed(m1) && Utf8.WellFormed(m2)
    requires |Utf8.Encode(m1)| <= 36 && |Utf8.Encode(m2)| <= 36
    requires m1 != m2
    ensures CacheKey(sessionId, m1) != CacheKey(sessionId, m2)
  {
    if CacheKey(sessionId, m1) == CacheKey(sessionId, m2) {
      KeyDeterminesSession(sessionId, m1, sessionId, m2);
      ShortMessageKeptWhole(m1);
      ShortMessageKeptWhole(m2);
      Base64.EncodeInjective(Utf8.Encode(m1), Utf8.Encode(m2));
      Utf8.EncodeInjective(m1, m2);
    }
  }

  /** Messages whose UTF-8 encodings agree on the first thirty-eight bytes
      share a key, whatever follows. */
  lemma {:induction false} SharedOpeningSharesKey(sessionId: JsString, m1: JsString, m2: JsString)
    requires |Utf8.Encode(m1)| >= 38 && |Utf8.Encode(m2)| >= 38
    requires Utf8.Encode(m1)[..38] == Utf8.Encode(m2)[..38]
    ensures CacheKey(sessionId, m1) == CacheKey(sessionId, m2)
  {
    var e1, e2 := Base64.Encode(Utf8.Encode(m1)), Base64.Encode(Utf8.Encode(m2));
    Base64.SharedOpening(Utf8.Encode(m1), Utf8.Encode(m2));
    assert Fingerprint(m1) == e1[..50] == e2[..50] == Fingerprint(m2);
  }

  /** So two questions that open with the same thirty-eight ASCII characters
      are answered from the same cache entry, however they continue. */
  lemma {:induction false} AsciiOpeningCollides(sessionId: JsString, opening: JsString, r1: JsString, r2: JsString)
    requires Utf8.IsAscii(opening) && |opening| >= 38
    ensures CacheKey(sessionId, opening + r1) == CacheKey(sessionId, opening + r2)
  {
    Utf8.EncodeAsciiPrefix(opening, r1);
    Utf8.EncodeAsciiPrefix(opening, r2);
    var e := Utf8.Encode(opening);
    assert Utf8.Encode(opening + r1)[..38] == e[..38] == Utf8.Encode(opening + r2)[..38];
    SharedOpeningSharesKey(sessionId, opening + r1, opening + r2);
  }

  /** A lone surrogate and U+FFFD give the same key: the key sees bytes, not
      code units. */
  lemma {:induction false} LoneSurrogateSharesKey(sessionId: JsString, u: CodeUnit)
    requires Utf8.IsSurrogate(u)
    ensures CacheKey(sessionId, [u]) == CacheKey(sessionId, [Utf8.REPLACEMENT])
  {
    Utf8.LoneSurrogateIsReplaced(u);
  }

  /** A Redis client handle; `connected` is false for a client whose
      `connect()` failed. */
  datatype Handle = Handle(connected: bool)

  /** What Redis holds under a key: the value and the TTL it was set with. */
  datatype Entry = Entry(value: JsString, ttl: int)

  /** The outcomes of the calls the cache makes to Redis, decided outside the
      model: whether a connection attempt succeeds, whether `get` and
      `setEx` throw. */
  datatype Faults = Faults(connectOk: bool, getThrows: bool, setThrows: bool)

  /** The module state of the cache service: whether REDIS_URL is set, the
      memoised client handle, and the contents of the Redis server. */
  class ResponseCache {
    const urlConfigured: bool
    var client: Option<Handle>
    var entries: map<JsString, Entry>

    ghost predicate Valid()
      reads this
    {
      client.Some? ==> urlConfigured
    }

    constructor (urlConfigured: bool, entries: map<JsString, Entry>)
      ensures Valid() && this.urlConfigured == urlConfigured
      ensures client == None && this.entries == entries
    {
      this.urlConfigured := urlConfigured;
      client := None;
      this.entries := entries;
    }

    /** The handle `getRedisClient` would hand out, as a function of the state
        before the call. */
    function Usable(connectOk: bool): (h: Option<Handle>)
      requires Valid()
      reads this
      ensures h.Some? ==> h.value.connected || client.Some?
      ensures client.None? && !urlConfigured ==> h.None?
    {
      if client.Some? then client
      else if !urlConfigured then None
      else if connectOk then Some(Handle(true))
      else None
    }

    /** `getRedisClient`: an existing handle is returned as is, without a new
        connection attempt, even one whose connection failed; without
        REDIS_URL there is no client; otherwise a client is created and stored
        before `connect()` runs, and null is returned if it fails. */
    method GetRedisClient(connectOk: bool) returns (h: Option<Handle>)
      requires Valid()
      modifies this`client
      ensures Valid()
      ensures h == old(Usable(connectOk))
      ensures old(client).Some? ==> client == old(client)
      ensures old(client).None? && urlConfigured ==> client == Some(Handle(connectOk))
      ensures old(client).None? && !urlConfigured ==> client == None
    {
      if client.Some? {
        return client;
      }
      if !urlConfigured {
        return None;
      }
      client := Some(Handle(connectOk));
      if connectOk {
        h := client;
      } else {
        h := None;
      }
    }

    /** Whether a command issued now reaches a connected Redis client. */
    predicate Connected(connectOk: bool)
      requires Valid()
      reads this
    {
      var h := Usable(connectOk);
      h.Some? && h.value.connected
    }

    /** The reply `getCachedResponse` finds under a key: none without a
        usable, connected client, when `get` throws, or when the key is
        absent. */
    function Lookup(key: JsString, faults: Faults): (r: Option<JsString>)
      requires Valid()
      reads this
      ensures r.Some? ==> key in entries && r.value == entries[key].value
      ensures r.Some? ==> urlConfigured && !faults.getThrows
      ensures Connected(faults.connectOk) && !faults.getThrows && key in entries ==> r == Some(entries[key].value)
      ensures r.None? ==> !Connected(faults.connectOk) || faults.getThrows || key !in entries
    {
      if !Connected(faults.connectOk) || faults.getThrows then None
      else if key in entries then Some(entries[key].value)
      else None
    }

    /** `getCachedResponse`: never fails; every problem reads as a miss. */
    method GetCachedResponse(key: JsString, faults: Faults) returns (r: Option<JsString>)
      requires Valid()
      modifies this`client
      ensures Valid() && entries == old(entries)
      ensures r == old(Lookup(key, faults))
      ensures Connected(faults.connectOk) == old(Connected(faults.connectOk))
      ensures Writes(faults) == old(Writes(faults))
      ensures client == old(if client.Some? || !urlConfigured then client else Some(Handle(faults.connectOk)))
    {
      var h := GetRedisClient(faults.connectOk);
      if h.None? {
        return None;
      }
      if !h.value.connected || faults.getThrows {
        // `client.get` throws; the error is logged and swallowed
        return None;
      }
      r := if key in entries then Some(entries[key].value) else None;
    }

    /** Whether `setCachedResponse` reaches Redis. */
    predicate Writes(faults: Faults)
      requires Valid()
      reads this
    {
      Connected(faults.connectOk) && !faults.setThrows
    }

    /** `setCachedResponse`: stores the value with its TTL (3600 seconds when
        not given) when Redis can be reached; otherwise does nothing and
        raises nothing. */
    method SetCachedResponse(key: JsString, value: JsString, faults: Faults, ttl: int := DEFAULT_TTL)
      requires Valid()
      modifies this
      ensures Valid()
      ensures entries == if old(Writes(faults)) then old(entries)[key := Entry(value, ttl)] else old(entries)
      ensures Connected(faults.connectOk) == old(Connected(faults.connectOk))
      ensures client == old(if client.Some? || !urlConfigured then client else Some(Handle(faults.connectOk)))
    {
      var h := GetRedisClient(faults.connectOk);
      if h.None? {
        return;
      }
      if !h.value.connected || faults.setThrows {
        // `client.setEx` throws; the error is logged and swallowed
        return;
      }
      entries := entries[key := Entry(value, ttl)];
    }
  }

  /** Once a connection attempt has failed, the cache stays off for good: the
      failed handle is kept and no later call reconnects, whatever the later
      connection attempts would do. */
  method FailedConnectionIsNeverRetried(cache: ResponseCache, key: JsString, value: JsString, later: Faults)
    returns (first: Option<JsString>, second: Option<JsString>)
    requires cache.Valid() && cache.urlConfigured && cache.client == None
    modifies cache
    ensures cache.Valid() && first == None && second == None
    ensures cache.client == Some(Handle(false)) && !cache.Connected(later.connectOk)
    ensures cache.entries == old(cache.entries)
  {
    first := cache.GetCachedResponse(key, Faults(false, false, false));
    second := cache.GetCachedResponse(key, later);
    cache.SetCachedResponse(key, value, later);
  }
}
