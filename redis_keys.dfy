// redis/keyGen.go: the earlier key generator used by the repositories under repository/.
module RedisKeys {
  import Cache

  datatype KeyGenerator = KeyGenerator(prefix: string)

  function KeyList(g: KeyGenerator): string { g.prefix }

  function KeyID(g: KeyGenerator, id: string): string { g.prefix + ":" + id }

  /** As written: the value argument is not part of the key. */
  function KeyField(g: KeyGenerator, field: string, value: string): string { g.prefix + ":" + field }

  /**
   * Every value of a field maps to the same key `prefix:field`, which is also the record
   * key of the id `field`: the legacy e-mail key "users:email" is the record key of a user
   * whose id is "email", so such a user's record and the e-mail lookup share one entry.
   */
  lemma KeyFieldIgnoresValue(g: KeyGenerator, field: string, a: string, b: string)
    ensures KeyField(g, field, a) == KeyField(g, field, b)
    ensures KeyField(g, field, a) == KeyID(g, field)
  {
  }

  /** Record and list keys are the same strings the later generator in internal/cache derives. */
  lemma SameRecordKeysAsCache(g: KeyGenerator, id: string)
    ensures KeyID(g, id) == Cache.KeyID(Cache.KeyGenerator(g.prefix), id)
    ensures KeyList(g) == Cache.KeyList(Cache.KeyGenerator(g.prefix))
  {
  }

  /** The later generator keeps the value: distinct values get distinct keys there. */
  lemma FieldKeysDifferFromCache(g: KeyGenerator, field: string, a: string, b: string)
    requires a != b
    ensures KeyField(g, field, a) == KeyField(g, field, b)
    ensures Cache.KeyField(Cache.KeyGenerator(g.prefix), field, a) != Cache.KeyField(Cache.KeyGenerator(g.prefix), field, b)
  {
    Cache.KeyFieldInjective(Cache.KeyGenerator(g.prefix), field, a, b);
  }
}
