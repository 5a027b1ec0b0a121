/** Versioned cache keys (matching-service/app/services/match_cache.py, `build_cache_key`). */
module CacheKey {
  import opened Text

  function BuildCacheKey(version: nat, digest: string): string {
    "match:v" + (Decimal(version) + ":" + digest)
  }

  /** No two pairs of version and digest share a key, so a bump hides every older entry. */
  lemma CacheKeyIsInjective(version: nat, digest: string, version': nat, digest': string)
    requires BuildCacheKey(version, digest) == BuildCacheKey(version', digest')
    ensures version == version' && digest == digest'
  {
    assert BuildCacheKey(version, digest)[7..] == Decimal(version) + ":" + digest;
    assert BuildCacheKey(version', digest')[7..] == Decimal(version') + ":" + digest';
    DecimalIsDigits(version);
    DecimalIsDigits(version');
    CutAtSeparator(Decimal(version), Decimal(version'), ':', digest, digest');
    DecimalIsInjective(version, version');
  }
}
