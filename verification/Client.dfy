/** The per-client state of src/client.rs and the lock sections of src/request.rs over it. */
module Client {
  import opened Wrappers
  import opened AltSvc
  import opened HttpsRr

  const DEFAULT_NEGATIVE_DURATION: nat := 5 * 60 * 1000

  datatype Origin = Origin(host: string, port: nat)

  datatype Uri = Uri(scheme: Option<string>, host: Option<string>, port: Option<nat>, rest: string)

  /** Only an https URI with a host has an origin that is cached under. */
  function OriginOf(uri: Uri): Option<Origin> {
    if uri.scheme == Some("https") && uri.host.Some?
    then Some(Origin(uri.host.value, if uri.port.Some? then uri.port.value else 443))
    else None
  }

  /** Which origin a request is for: https only, the URI's host, its port or else 443. */
  lemma OriginExactly(uri: Uri, o: Origin)
    ensures OriginOf(uri) == Some(o) <==>
            uri.scheme == Some("https") && uri.host == Some(o.host) && (uri.port == Some(o.port) || (uri.port.None? && o.port == 443))
  {
  }

  /** `evicts` tells whether a lookup removes the stale entry it finds: the code always does. */
  datatype Config = Config(http3Enabled: bool, negativeDuration: nat, evicts: bool)

  datatype Caches = Caches(negative: map<Origin, nat>,
                           altSvc: map<Origin, AltSvcEntry>,
                           httpsRr: map<Origin, HttpsRrEntry>)

  const EMPTY := Caches(map[], map[], map[])

  // ---- The lock sections, one function each ----

  function LookupNegative(cfg: Config, c: Caches, o: Origin, now: nat): (Caches, bool) {
    if o in c.negative && c.negative[o] > now then (c, true)
    else if cfg.evicts then (c.(negative := c.negative - {o}), false)
    else (c, false)
  }

  function LookupAltSvc(cfg: Config, c: Caches, o: Origin, now: nat): (Caches, Option<AltSvcEntry>) {
    if o in c.altSvc && AltSvc.Fresh(c.altSvc[o], now) then (c, Some(c.altSvc[o]))
    else if cfg.evicts then (c.(altSvc := c.altSvc - {o}), None)
    else (c, None)
  }

  function LookupHttpsRr(cfg: Config, c: Caches, o: Origin, now: nat): (Caches, Option<HttpsRrEntry>) {
    if o in c.httpsRr && HttpsRr.Fresh(c.httpsRr[o], now) then (c, Some(c.httpsRr[o]))
    else if cfg.evicts then (c.(httpsRr := c.httpsRr - {o}), None)
    else (c, None)
  }

  function StoreHttpsRr(c: Caches, o: Origin, entry: HttpsRrEntry): Caches {
    c.(httpsRr := c.httpsRr[o := entry])
  }

  /** First half of `insert_negative`. */
  function WriteNegative(cfg: Config, c: Caches, o: Origin, base: nat): Caches {
    c.(negative := c.negative[o := base + cfg.negativeDuration])
  }

  /** Second half of `insert_negative`. */
  function RemoveAltSvc(c: Caches, o: Origin): Caches {
    c.(altSvc := c.altSvc - {o})
  }

  function ApplyUpdate(c: Caches, o: Origin, update: AltSvcUpdate): Caches {
    match update
    case Clear => c.(altSvc := c.altSvc - {o})
    case Entry(entry) => c.(altSvc := c.altSvc[o := entry])
    case NoAlternative => c
  }

  // ---- The client object ----

  class ClientInner {
    const config: Config
    var negativeCache: map<Origin, nat>
    var altSvcCache: map<Origin, AltSvcEntry>
    var httpsRrCache: map<Origin, HttpsRrEntry>

    constructor (http3Enabled: bool, negativeDuration: Option<nat>)
      ensures config == Config(http3Enabled, if negativeDuration.Some? then negativeDuration.value else DEFAULT_NEGATIVE_DURATION, true)
      ensures negativeDuration.None? ==> config.negativeDuration == 300_000
      ensures negativeCache == map[] && altSvcCache == map[] && httpsRrCache == map[]
      ensures Contents() == EMPTY
    {
      config := Config(http3Enabled, if negativeDuration.Some? then negativeDuration.value else DEFAULT_NEGATIVE_DURATION, true);
      negativeCache := map[];
      altSvcCache := map[];
      httpsRrCache := map[];
    }

    ghost function Contents(): Caches
      reads this
    {
      Caches(negativeCache, altSvcCache, httpsRrCache)
    }

    method NegativeCacheHit(o: Origin, now: nat) returns (hit: bool)
      requires config.evicts
      modifies this
      ensures (Contents(), hit) == LookupNegative(config, old(Contents()), o, now)
      ensures hit <==> o in old(negativeCache) && old(negativeCache)[o] > now
      ensures negativeCache == if hit then old(negativeCache) else old(negativeCache) - {o}
      ensures altSvcCache == old(altSvcCache) && httpsRrCache == old(httpsRrCache)
    {
      if o in negativeCache && negativeCache[o] > now {
        return true;
      }
      negativeCache := negativeCache - {o};
      return false;
    }

    method AltSvcEntryFor(o: Origin, now: nat) returns (entry: Option<AltSvcEntry>)
      requires config.evicts
      modifies this
      ensures (Contents(), entry) == LookupAltSvc(config, old(Contents()), o, now)
      ensures entry.Some? <==> o in old(altSvcCache) && old(altSvcCache)[o].expiresAt > now
      ensures entry.Some? ==> entry.value == old(altSvcCache)[o]
      ensures altSvcCache == if entry.Some? then old(altSvcCache) else old(altSvcCache) - {o}
      ensures negativeCache == old(negativeCache) && httpsRrCache == old(httpsRrCache)
    {
      if o in altSvcCache && AltSvc.Fresh(altSvcCache[o], now) {
        return Some(altSvcCache[o]);
      }
      altSvcCache := altSvcCache - {o};
      return None;
    }

    /** The first lock section of `https_rr_entry`. */
    method CachedHttpsRr(o: Origin, now: nat) returns (entry: Option<HttpsRrEntry>)
      requires config.evicts
      modifies this
      ensures (Contents(), entry) == LookupHttpsRr(config, old(Contents()), o, now)
      ensures entry.Some? <==> o in old(httpsRrCache) && old(httpsRrCache)[o].expiresAt > now
      ensures entry.Some? ==> entry.value == old(httpsRrCache)[o]
      ensures httpsRrCache == if entry.Some? then old(httpsRrCache) else old(httpsRrCache) - {o}
      ensures negativeCache == old(negativeCache) && altSvcCache == old(altSvcCache)
    {
      if o in httpsRrCache && HttpsRr.Fresh(httpsRrCache[o], now) {
        return Some(httpsRrCache[o]);
      }
      httpsRrCache := httpsRrCache - {o};
      return None;
    }

    /** The second lock section of `https_rr_entry`. */
    method InsertHttpsRr(o: Origin, entry: HttpsRrEntry)
      modifies this
      ensures Contents() == StoreHttpsRr(old(Contents()), o, entry)
      ensures httpsRrCache == old(httpsRrCache)[o := entry]
      ensures negativeCache == old(negativeCache) && altSvcCache == old(altSvcCache)
    {
      httpsRrCache := httpsRrCache[o := entry];
    }

    method InsertNegative(o: Origin, base: nat)
      modifies this
      ensures Contents() == RemoveAltSvc(WriteNegative(config, old(Contents()), o, base), o)
      ensures negativeCache == old(negativeCache)[o := base + config.negativeDuration]
      ensures altSvcCache == old(altSvcCache) - {o} && httpsRrCache == old(httpsRrCache)
    {
      negativeCache := negativeCache[o := base + config.negativeDuration];
      altSvcCache := altSvcCache - {o};
    }

    method UpdateAltSvc(o: Origin, update: AltSvcUpdate)
      modifies this
      ensures Contents() == ApplyUpdate(old(Contents()), o, update)
      ensures altSvcCache == match update
                             case Clear => old(altSvcCache) - {o}
                             case Entry(entry) => old(altSvcCache)[o := entry]
                             case NoAlternative => old(altSvcCache)
      ensures negativeCache == old(negativeCache) && httpsRrCache == old(httpsRrCache)
    {
      match update {
        case Clear => altSvcCache := altSvcCache - {o};
        case Entry(entry) => altSvcCache := altSvcCache[o := entry];
        case NoAlternative =>
      }
    }
  }
}
