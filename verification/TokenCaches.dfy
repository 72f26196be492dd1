/** The access-token cache of the TimelyGPT client, as a question about past grants and evictions. */
module TokenCaches {
  import opened Wrappers

  type Time = real
  type Key = string
  type Token = string

  const LIFETIME: Time := 3300.0 // 55 minutes

  datatype Entry = Entry(token: Token, expires: Time)

  datatype Act = Grant(key: Key, token: Token, at: Time) | Evict(key: Key)

  /** The last thing that happened to a key. */
  function Latest(h: seq<Act>, key: Key): Option<Act> {
    if h == [] then None
    else if h[|h| - 1].key == key then Some(h[|h| - 1])
    else Latest(h[..|h| - 1], key)
  }

  /** The token served for a key at a time, as a function of the past. */
  function Serving(h: seq<Act>, key: Key, now: Time): Option<Token> {
    match Latest(h, key)
    case Some(Grant(_, token, at)) => if now < at + LIFETIME then Some(token) else None
    case _ => None
  }

  predicate LastAbout(h: seq<Act>, key: Key, i: nat)
    requires i < |h|
  {
    h[i].key == key && forall j | i < j < |h| :: h[j].key != key
  }

  predicate GrantedAt(h: seq<Act>, key: Key, token: Token, now: Time, i: nat)
    requires i < |h|
  {
    LastAbout(h, key, i) && h[i].Grant? && h[i].token == token && now < h[i].at + 55.0 * 60.0
  }

  lemma {:induction false} LatestIs(h: seq<Act>, key: Key, i: nat)
    requires i < |h| && LastAbout(h, key, i)
    ensures Latest(h, key) == Some(h[i])
  {
    if i < |h| - 1 {
      assert LastAbout(h[..|h| - 1], key, i);
      LatestIs(h[..|h| - 1], key, i);
    }
  }

  lemma {:induction false} LatestFound(h: seq<Act>, key: Key) returns (i: nat)
    requires Latest(h, key).Some?
    ensures i < |h| && LastAbout(h, key, i) && Latest(h, key) == Some(h[i])
  {
    i := |h| - 1;
    if h[i].key != key {
      i := LatestFound(h[..|h| - 1], key);
    }
  }

  /** Served exactly the token last granted to this very key, under 55 minutes ago and not evicted since. */
  lemma {:induction false} ServedIff(h: seq<Act>, key: Key, token: Token, now: Time)
    ensures Serving(h, key, now) == Some(token) <==> exists i: nat | i < |h| :: GrantedAt(h, key, token, now, i)
  {
    if Serving(h, key, now) == Some(token) {
      var i := LatestFound(h, key);
      assert GrantedAt(h, key, token, now, i);
    }
    forall i: nat | i < |h| && GrantedAt(h, key, token, now, i) ensures Serving(h, key, now) == Some(token) {
      LatestIs(h, key, i);
    }
  }

  /** After a 401 the key is served nothing until it is granted a token again. */
  lemma {:induction false} EvictedUntilGranted(h: seq<Act>, key: Key, later: seq<Act>, now: Time)
    requires forall i | 0 <= i < |later| :: !(later[i].Grant? && later[i].key == key)
    ensures Serving(h + [Evict(key)] + later, key, now) == None
  {
    var all := h + [Evict(key)] + later;
    if later == [] {
      assert all[|all| - 1] == Evict(key);
    } else {
      var n := |later| - 1;
      assert all[|all| - 1] == later[n];
      assert all[..|all| - 1] == h + [Evict(key)] + later[..n];
      EvictedUntilGranted(h, key, later[..n], now);
    }
  }

  /** The map holds for this key what its last grant or eviction left. */
  predicate Reflects(entries: map<Key, Entry>, h: seq<Act>, key: Key) {
    match Latest(h, key)
    case Some(Grant(_, token, at)) => key in entries && entries[key] == Entry(token, at + LIFETIME)
    case _ => key !in entries
  }

  class TokenCache {
    var entries: map<Key, Entry>
    ghost var history: seq<Act>

    ghost predicate Valid()
      reads this
    {
      forall key :: Reflects(entries, history, key)
    }

    constructor ()
      ensures Valid() && history == []
    {
      entries, history := map[], [];
    }

    method Lookup(key: Key, now: Time) returns (token: Option<Token>)
      requires Valid()
      ensures token == Serving(history, key, now)
    {
      assert Reflects(entries, history, key);
      token := None;
      if key in entries {
        var entry := entries[key];
        if now < entry.expires {
          token := Some(entry.token);
        }
      }
    }

    method Store(key: Key, token: Token, now: Time)
      requires Valid()
      modifies this
      ensures Valid() && history == old(history) + [Grant(key, token, now)]
    {
      entries := entries[key := Entry(token, now + LIFETIME)];
      history := history + [Grant(key, token, now)];
      assert history[..|history| - 1] == old(history);
      assert forall k :: Reflects(old(entries), old(history), k) ==> Reflects(entries, history, k);
    }

    /** _token_cache.pop(api_key, None) after a 401 from the completion endpoint. */
    method Pop(key: Key)
      requires Valid()
      modifies this
      ensures Valid() && history == old(history) + [Evict(key)]
    {
      entries := entries - {key};
      history := history + [Evict(key)];
      assert history[..|history| - 1] == old(history);
      assert forall k :: Reflects(old(entries), old(history), k) ==> Reflects(entries, history, k);
    }
  }
}
