/** The two-tier license cache: `getLicenseCached`, `changeLicense` and the
    cache side of `saveLicenseWithCheck`.

    The first tier is the in-memory `appState.license`; the second the user
    properties `LICENSE_KEY` and `LICENSE_META` (the JSON of the license
    without its key); behind both sits the server's `getLicense()`, whose
    answer is a parameter here, as is the clock. */
module Licensing {
  import opened Wrappers
  import opened Text

  /** Twenty-four hours in milliseconds. */
  const LicenseCacheTtlMs: int := 24 * 60 * 60 * 1000

  /** A license record; `cachedAt` is 0 when it is missing. */
  datatype License = License(key: string, plan: string, maxGroups: int, expires: string, cachedAt: int)

  /** The fields `LICENSE_META` holds. */
  datatype Meta = Meta(plan: string, maxGroups: int, expires: string, cachedAt: int)

  /** `LICENSE_META` as read back: missing or empty, text that `JSON.parse`
      rejects, or a parsed record. */
  datatype MetaProp = NoMeta | Unparsable | Stored(meta: Meta)

  /** The memory slot and the two user properties (`""` is a missing key). */
  datatype CacheState = CacheState(memory: Option<License>, keyProp: string, metaProp: MetaProp)

  /** What a lookup returns (None is `null`) and the cache it leaves. */
  datatype Outcome = Outcome(result: Option<License>, state: CacheState)

  function MetaOf(l: License): Meta
  {
    Meta(l.plan, l.maxGroups, l.expires, l.cachedAt)
  }

  /** The memory entry exists, has a time stamp and is younger than the TTL. */
  predicate MemoryFresh(st: CacheState, now: int)
  {
    st.memory.Some? && st.memory.value.cachedAt != 0 && now - st.memory.value.cachedAt < LicenseCacheTtlMs
  }

  /** Both properties are present, the metadata parses, and its time stamp
      (0 when absent) is younger than the TTL. */
  predicate StoreFresh(st: CacheState, now: int)
  {
    st.keyProp != "" && st.metaProp.Stored? && now - st.metaProp.meta.cachedAt < LicenseCacheTtlMs
  }

  /** The license rebuilt from the two properties. */
  function Promoted(st: CacheState): License
    requires st.metaProp.Stored?
  {
    var m := st.metaProp.meta;
    License(st.keyProp, m.plan, m.maxGroups, m.expires, m.cachedAt)
  }

  /** `getLicenseCached(force)` at time now, when the server would answer
      remote (None for `null` or a failed call). */
  function Lookup(st: CacheState, force: bool, now: int, remote: Option<License>): Outcome
  {
    if !force && MemoryFresh(st, now) then Outcome(st.memory, st)
    else if !force && StoreFresh(st, now) then
      var l := Promoted(st);
      Outcome(Some(l), st.(memory := Some(l)))
    else if remote.Some? && remote.value.key != "" then
      var renewed := remote.value.(cachedAt := now);
      Outcome(Some(renewed), CacheState(Some(renewed), renewed.key, Stored(MetaOf(renewed))))
    else Outcome(None, st)
  }

  /** The answer of the server's license check. */
  datatype VerifyReply = VerifyReply(success: bool, error: string)

  class LicenseCache {
    var memory: Option<License>
    var keyProp: string
    var metaProp: MetaProp

    constructor(st: CacheState)
      ensures State() == st
    {
      memory, keyProp, metaProp := st.memory, st.keyProp, st.metaProp;
    }

    function State(): CacheState
      reads this
    {
      CacheState(memory, keyProp, metaProp)
    }

    method GetLicenseCached(force: bool, now: int, remote: Option<License>) returns (r: Option<License>)
      modifies this
      ensures r == Lookup(old(State()), force, now, remote).result
      ensures State() == Lookup(old(State()), force, now, remote).state
    {
      if !force && memory.Some? && memory.value.cachedAt != 0 {
        var age := now - memory.value.cachedAt;
        if age < LicenseCacheTtlMs {
          return memory;
        }
      }
      if !force && keyProp != "" && metaProp != NoMeta {
        if metaProp.Stored? {
          var meta := metaProp.meta;
          var age2 := now - meta.cachedAt;
          if age2 < LicenseCacheTtlMs {
            memory := Some(License(keyProp, meta.plan, meta.maxGroups, meta.expires, meta.cachedAt));
            return memory;
          }
        }
      }
      if remote.Some? && remote.value.key != "" {
        var renewed := remote.value.(cachedAt := now);
        memory := Some(renewed);
        keyProp := renewed.key;
        metaProp := Stored(MetaOf(renewed));
        return Some(renewed);
      }
      return None;
    }

    /** Clears the memory slot and both properties. */
    method ChangeLicense()
      modifies this
      ensures State() == CacheState(None, "", NoMeta)
    {
      keyProp := "";
      metaProp := NoMeta;
      memory := None;
    }

    /** A blank key is refused before anything is sent; reply is the
        server's answer for the trimmed key.  On success the key is stored
        as typed and the cache is refreshed from the server. */
    method SaveLicenseWithCheck(licenseKey: string, reply: VerifyReply, now: int, remote: Option<License>)
      returns (r: VerifyReply)
      modifies this
      ensures Trim(licenseKey) == [] ==>
        r == VerifyReply(false, "❌ Введите лицензионный ключ") && State() == old(State())
      ensures Trim(licenseKey) != [] && !reply.success ==> r == reply && State() == old(State())
      ensures Trim(licenseKey) != [] && reply.success ==>
        r == reply && State() == Lookup(old(State()).(keyProp := licenseKey), true, now, remote).state
    {
      if Trim(licenseKey) == [] {
        return VerifyReply(false, "❌ Введите лицензионный ключ");
      }
      if reply.success {
        keyProp := licenseKey;
        var _ := GetLicenseCached(true, now, remote);
      }
      return reply;
    }
  }

  // ---------------------------------------------------------------------
  // The tiers.

  /** A renewed memory entry is returned as it is: the properties and the
      server are not consulted and nothing is written. */
  lemma MemoryTier(st: CacheState, now: int, remote: Option<License>, other: Option<License>)
    requires MemoryFresh(st, now)
    ensures Lookup(st, false, now, remote) == Outcome(st.memory, st)
    ensures Lookup(st, false, now, remote) == Lookup(st, false, now, other)
  {
  }

  /** Failing that, renewed properties are promoted to memory and returned;
      the properties stay as they were and the server is not consulted. */
  lemma StoreTier(st: CacheState, now: int, remote: Option<License>, other: Option<License>)
    requires !MemoryFresh(st, now) && StoreFresh(st, now)
    ensures var o := Lookup(st, false, now, remote);
      && o.result == Some(Promoted(st))
      && o.state == CacheState(Some(Promoted(st)), st.keyProp, st.metaProp)
      && o == Lookup(st, false, now, other)
  {
  }

  /** A forced lookup ignores both tiers: what it returns and leaves depends
      on the cache only when the server has no license. */
  lemma ForceBypassesTiers(st: CacheState, st2: CacheState, now: int, remote: Option<License>)
    requires remote.Some? && remote.value.key != ""
    ensures Lookup(st, true, now, remote) == Lookup(st2, true, now, remote)
  {
  }

  /** A refresh stamps the server's license with the time and writes it to
      memory and to both properties before returning it. */
  lemma RefreshWrites(st: CacheState, force: bool, now: int, remote: Option<License>)
    requires force || (!MemoryFresh(st, now) && !StoreFresh(st, now))
    requires remote.Some? && remote.value.key != ""
    ensures var renewed := remote.value.(cachedAt := now);
      && Lookup(st, force, now, remote).result == Some(renewed)
      && Lookup(st, force, now, remote).state == CacheState(Some(renewed), renewed.key, Stored(MetaOf(renewed)))
  {
  }

  /** Without a license from the server the answer is null and nothing is
      written. */
  lemma RefreshFails(st: CacheState, force: bool, now: int, remote: Option<License>)
    requires force || (!MemoryFresh(st, now) && !StoreFresh(st, now))
    requires remote.None? || remote.value.key == ""
    ensures Lookup(st, force, now, remote) == Outcome(None, st)
  {
  }

  /** The freshness test is strict: an entry exactly one TTL old is stale. */
  lemma TtlBoundary(l: License)
    requires l.cachedAt != 0
    ensures MemoryFresh(CacheState(Some(l), "", NoMeta), l.cachedAt + LicenseCacheTtlMs - 1)
    ensures !MemoryFresh(CacheState(Some(l), "", NoMeta), l.cachedAt + LicenseCacheTtlMs)
    ensures LicenseCacheTtlMs == 86400000
  {
  }

  // ---------------------------------------------------------------------
  // The cache serves what the refresh stored.

  /** Within a day of a refresh, a lookup returns the refreshed license from
      memory, whatever the server would now say. */
  lemma RefreshThenMemoryHit(st: CacheState, force: bool, now: int, later: int,
                             remote: Option<License>, other: Option<License>)
    requires force || (!MemoryFresh(st, now) && !StoreFresh(st, now))
    requires remote.Some? && remote.value.key != ""
    requires now != 0 && later - now < LicenseCacheTtlMs
    ensures var o := Lookup(st, force, now, remote);
      Lookup(o.state, false, later, other) == Outcome(o.result, o.state)
  {
  }

  /** When the memory slot is lost (a new script run), the properties
      written by a refresh rebuild exactly the refreshed license. */
  lemma RefreshThenStoreHit(st: CacheState, force: bool, now: int, later: int,
                            remote: Option<License>, other: Option<License>)
    requires force || (!MemoryFresh(st, now) && !StoreFresh(st, now))
    requires remote.Some? && remote.value.key != ""
    requires later - now < LicenseCacheTtlMs
    ensures var o := Lookup(st, force, now, remote);
      Lookup(o.state.(memory := None), false, later, other) == Outcome(o.result, o.state)
  {
  }

  /** After the cache is cleared the next lookup goes to the server. */
  lemma ClearedGoesToServer(now: int, remote: Option<License>)
    ensures Lookup(CacheState(None, "", NoMeta), false, now, remote)
         == Lookup(CacheState(None, "", NoMeta), true, now, remote)
  {
  }
}
