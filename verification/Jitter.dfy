/** The TTLs that RedisClient gives to keys. */
module Jitter {

  /** `_jitter_ttl`: the TTLs that some draw gives. */
  predicate Jittered(base: int, ttl: int) {
    if base <= 0 then ttl == base else base - base / 5 <= ttl <= base + base / 5
  }

  /** Exactly the whole numbers that are off by a fifth at most. */
  lemma OffByAFifth(base: int, ttl: int)
    requires base >= 1
    ensures Jittered(base, ttl) <==> -base <= 5 * (ttl - base) <= base
  {
  }
}
