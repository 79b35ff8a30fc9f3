/**
 * The browser's `localStorage` as the widgets use it: a payload entry
 * `<key>` holding JSON and a companion entry `<key>-time` holding the
 * epoch-millisecond time it was written. Each widget owns its own key
 * family, so the model gives each widget a `Store` over its own payload type.
 */
module Cache {
  import opened Options

  /** The one hour TTL of the release, directory-listing and language caches. */
  const HourMs: int := 3600000

  /** A stored payload: `Malformed` is one whose `JSON.parse` throws. */
  datatype Stored<P> = Parsed(value: P) | Malformed

  /**
   * An entry is fresh when both of its keys are present and it was written
   * less than `ttl` milliseconds before `now`.
   */
  predicate IsFresh<P>(payloads: map<string, Stored<P>>, stamps: map<string, int>,
                       key: string, now: int, ttl: int)
  {
    key in payloads && key in stamps && now - stamps[key] < ttl
  }

  /** The entry a reader may use: present only while fresh. */
  function Lookup<P>(payloads: map<string, Stored<P>>, stamps: map<string, int>,
                     key: string, now: int, ttl: int): (r: Option<Stored<P>>)
    ensures r.Some? <==> IsFresh(payloads, stamps, key, now, ttl)
    ensures r.Some? ==> r.value == payloads[key]
  {
    if IsFresh(payloads, stamps, key, now, ttl) then Some(payloads[key]) else None
  }

  /**
   * Writing a payload at `now` and reading it back at `later` returns it
   * exactly while `later - now < ttl`; other keys read as before.
   */
  lemma PutThenLookup<P>(payloads: map<string, Stored<P>>, stamps: map<string, int>,
                         key: string, value: P, now: int, later: int, ttl: int, other: string)
    requires other != key
    ensures Lookup(payloads[key := Parsed(value)], stamps[key := now], key, later, ttl)
            == if later - now < ttl then Some(Parsed(value)) else None
    ensures Lookup(payloads[key := Parsed(value)], stamps[key := now], other, later, ttl)
            == Lookup(payloads, stamps, other, later, ttl)
  {
  }

  class Store<P> {
    /** The `<key>` entries. */
    var payloads: map<string, Stored<P>>
    /** The `<key>-time` entries, already read with `parseInt`. */
    var stamps: map<string, int>

    constructor (payloads: map<string, Stored<P>>, stamps: map<string, int>)
      ensures this.payloads == payloads && this.stamps == stamps
    {
      this.payloads := payloads;
      this.stamps := stamps;
    }

    predicate Fresh(key: string, now: int, ttl: int)
      reads this
    {
      IsFresh(payloads, stamps, key, now, ttl)
    }

    /** `setItem(key, JSON.stringify(value)); setItem(key + '-time', now)`. */
    method Put(key: string, value: P, now: int)
      modifies this
      ensures payloads == old(payloads)[key := Parsed(value)]
      ensures stamps == old(stamps)[key := now]
    {
      payloads := payloads[key := Parsed(value)];
      stamps := stamps[key := now];
    }

    /** `removeItem(key); removeItem(key + '-time')`. */
    method Remove(key: string)
      modifies this
      ensures payloads == old(payloads) - {key}
      ensures stamps == old(stamps) - {key}
      ensures forall now, ttl :: !Fresh(key, now, ttl)
    {
      payloads := payloads - {key};
      stamps := stamps - {key};
    }
  }
}
