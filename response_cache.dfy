/**
 * The read-through response cache every backend handler wraps around its
 * queries: `new NodeCache({ stdTTL: 600 })`, keyed by the request's
 * `originalUrl`, consulted with `has` then `get`, filled with `set` after the
 * queries ran.
 *
 * The clock is explicit: each cache call takes the time in milliseconds at
 * which it reads `Date.now()`. The queries are an oracle whose answer is a
 * parameter: `Some(body)` when they succeed, `None` when they throw.
 */
module ResponseCache {
  import opened Wrappers

  /** `stdTTL: 600`, in the milliseconds the clock counts. */
  const TtlMillis: int := 600 * 1000

  /** A stored value and the time after which it is expired. */
  datatype Entry<V> = Entry(value: V, expiresAt: int)

  /** What the handler answers: a JSON body, `res.json(undefined)` (an empty body), or the 500 error. */
  datatype Response<V> = Json(body: V) | EmptyBody | ServerError

  class Cache<V> {
    var entries: map<string, Entry<V>>

    constructor()
      ensures entries == map[]
    {
      entries := map[];
    }

    /** The entry for `key` exists and is not yet expired at `now` (expired means its time is strictly past). */
    predicate Live(key: string, now: int)
      reads this
    {
      key in entries && now <= entries[key].expiresAt
    }

    /** The entries after a lookup of `key` at `now`: an expired entry is deleted on the spot. */
    function Pruned(key: string, now: int): map<string, Entry<V>>
      reads this
    {
      if key in entries && !Live(key, now) then entries - {key} else entries
    }

    /** `has(key)`. */
    method Has(key: string, now: int) returns (hit: bool)
      modifies this
      ensures hit == old(Live(key, now))
      ensures entries == old(Pruned(key, now))
    {
      hit := Live(key, now);
      entries := Pruned(key, now);
    }

    /** `get(key)`: the stored value, or `None` for `undefined`. */
    method Get(key: string, now: int) returns (v: Option<V>)
      modifies this
      ensures v == if old(Live(key, now)) then Some(old(entries[key].value)) else None
      ensures entries == old(Pruned(key, now))
    {
      v := if Live(key, now) then Some(entries[key].value) else None;
      entries := Pruned(key, now);
    }

    /** `set(key, value)` with the default time to live. */
    method Set(key: string, value: V, now: int)
      modifies this
      ensures entries == old(entries)[key := Entry(value, now + TtlMillis)]
      ensures Live(key, now)
    {
      entries := entries[key := Entry(value, now + TtlMillis)];
    }
  }

  /**
   * The handler template as the backend writes it: `has` at `tHas`, and on a
   * hit `get` at `tGet` and answer with whatever it returns; on a miss run
   * the queries (`computed`) and, when they succeed, `set` at `tSet` before
   * answering. `queried` tells whether the queries ran.
   */
  method ServeAsWritten<V>(cache: Cache<V>, key: string, tHas: int, tGet: int, tSet: int, computed: Option<V>)
    returns (resp: Response<V>, queried: bool)
    modifies cache
    ensures queried <==> !old(cache.Live(key, tHas))
    ensures !queried && old(cache.Live(key, tGet)) ==> resp == Json(old(cache.entries[key].value))
    ensures !queried && !old(cache.Live(key, tGet)) ==> resp == EmptyBody
    ensures !queried ==> cache.entries == old(cache.Pruned(key, tGet))
    ensures queried ==> resp == (if computed.Some? then Json(computed.value) else ServerError)
    ensures queried && computed.Some? ==> cache.entries == old(cache.Pruned(key, tHas))[key := Entry(computed.value, tSet + TtlMillis)]
    ensures queried && computed.None? ==> cache.entries == old(cache.Pruned(key, tHas))
  {
    var hit := cache.Has(key, tHas);
    if hit {
      var v := cache.Get(key, tGet);
      queried := false;
      resp := if v.Some? then Json(v.value) else EmptyBody;
    } else {
      queried := true;
      if computed.Some? {
        cache.Set(key, computed.value, tSet);
        resp := Json(computed.value);
      } else {
        resp := ServerError;
      }
    }
  }

  /**
   * The template with one lookup: `get` at `now` decides hit or miss and
   * supplies the body, so a hit can never answer with an empty body.
   */
  method Serve<V>(cache: Cache<V>, key: string, now: int, tSet: int, computed: Option<V>)
    returns (resp: Response<V>, queried: bool)
    modifies cache
    ensures queried <==> !old(cache.Live(key, now))
    ensures !queried ==> resp == Json(old(cache.entries[key].value))
    ensures !queried ==> cache.entries == old(cache.entries)
    ensures queried ==> resp == (if computed.Some? then Json(computed.value) else ServerError)
    ensures queried && computed.Some? ==> cache.entries == old(cache.Pruned(key, now))[key := Entry(computed.value, tSet + TtlMillis)]
    ensures queried && computed.None? ==> cache.entries == old(cache.Pruned(key, now))
    ensures resp != EmptyBody
  {
    var v := cache.Get(key, now);
    if v.Some? {
      queried := false;
      resp := Json(v.value);
    } else {
      queried := true;
      if computed.Some? {
        cache.Set(key, computed.value, tSet);
        resp := Json(computed.value);
      } else {
        resp := ServerError;
      }
    }
  }

  // ---- Replays of two requests on a fresh cache, through the handler as written ----
  // Within one request, `has`, `get` and `set` all read the same time.

  /**
   * A repeat within the time to live is answered from the cache: the
   * queries do not run again and the body is the first one, whatever the
   * queries would now return.
   */
  method RepeatWithinTtl<V>(key: string, first: V, again: Option<V>, t0: int, t1: int)
    returns (resp: Response<V>, queried: bool)
    requires t0 <= t1 <= t0 + TtlMillis
    ensures !queried && resp == Json(first)
  {
    var cache := new Cache<V>();
    var r0, q0 := ServeAsWritten(cache, key, t0, t0, t0, Some(first));
    resp, queried := ServeAsWritten(cache, key, t1, t1, t1, again);
  }

  /** After the time to live the entry is gone: the queries run again and their answer is sent. */
  method RepeatAfterTtl<V>(key: string, first: V, again: V, t0: int, t1: int)
    returns (resp: Response<V>, queried: bool)
    requires t1 > t0 + TtlMillis
    ensures queried && resp == Json(again)
  {
    var cache := new Cache<V>();
    var r0, q0 := ServeAsWritten(cache, key, t0, t0, t0, Some(first));
    resp, queried := ServeAsWritten(cache, key, t1, t1, t1, Some(again));
  }

  /** A failed query stores nothing: the next request for the URL runs the queries again. */
  method RetryAfterFailure<V>(key: string, again: V, t0: int, t1: int)
    returns (resp: Response<V>, queried: bool)
    ensures queried && resp == Json(again)
  {
    var cache := new Cache<V>();
    var r0, q0 := ServeAsWritten(cache, key, t0, t0, t0, None);
    resp, queried := ServeAsWritten(cache, key, t1, t1, t1, Some(again));
  }

  /** Requests for two different URLs never share an entry. */
  method OtherKeyMisses<V>(key: string, other: string, first: V, second: V, t0: int, t1: int)
    returns (resp: Response<V>, queried: bool)
    requires key != other && t0 <= t1 <= t0 + TtlMillis
    ensures queried && resp == Json(second)
  {
    var cache := new Cache<V>();
    var r0, q0 := ServeAsWritten(cache, key, t0, t0, t0, Some(first));
    resp, queried := ServeAsWritten(cache, other, t1, t1, t1, Some(second));
  }

  /**
   * The as-written template reads the clock twice on a hit. An entry stored
   * at time 0 is still live for `has` at 600000 ms but expired for `get` one
   * millisecond later, and the handler answers `res.json(undefined)`.
   */
  method ClockRaceAsWritten(key: string, body: int) returns (resp: Response<int>, queried: bool)
    ensures !queried && resp == EmptyBody
  {
    var cache := new Cache<int>();
    cache.Set(key, body, 0);
    resp, queried := ServeAsWritten(cache, key, TtlMillis, TtlMillis + 1, TtlMillis + 1, Some(body));
  }

  /** The single-lookup template on the same timeline sends a body: the queries' answer. */
  method ClockRaceCorrected(key: string, body: int) returns (resp: Response<int>, queried: bool)
    ensures queried && resp == Json(body)
  {
    var cache := new Cache<int>();
    cache.Set(key, body, 0);
    resp, queried := Serve(cache, key, TtlMillis + 1, TtlMillis + 1, Some(body));
  }
}
