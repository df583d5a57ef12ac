// repository/user_repo.go: the earlier user repository, keyed by redis/keyGen.go. Its
// email lookups use KeyField("email", email), which is "users:email" whatever the email.
module LegacyUserRepository {
  import opened Wrappers
  import Cache
  import CacheAside
  import RedisKeys
  import Store
  import opened UserModel

  const Keys: RedisKeys.KeyGenerator := RedisKeys.KeyGenerator("users")

  function ListKey(): string { RedisKeys.KeyList(Keys) }
  function IdKey(id: string): string { RedisKeys.KeyID(Keys, id) }
  function EmailKey(email: string): string { RedisKeys.KeyField(Keys, "email", email) }

  function HasEmail(email: string): User -> bool { (u: User) => u.email == email }

  /** What a read by id returns from a given state: the cached user on a hit, otherwise the database's answer. */
  function ReadByID(rows: seq<Store.Row<User>>, cache: map<string, Cache.Cached<User>>, id: string, f: Store.Faults): Result<User, Store.StoreError>
  {
    CacheAside.ReadThrough(Cache.GetOne(cache, IdKey(id), f.CacheOk(0)), Store.GetByID(rows, id, f.StoreOk(0)))
  }

  /** What a read by email returns from a given state. */
  function ReadByEmail(rows: seq<Store.Row<User>>, cache: map<string, Cache.Cached<User>>, email: string, f: Store.Faults): Result<User, Store.StoreError>
  {
    CacheAside.ReadThrough(Cache.GetOne(cache, EmailKey(email), f.CacheOk(0)), Store.GetByField(rows, HasEmail(email), f.StoreOk(0)))
  }

  /** What the listing returns from a given state. */
  function ReadAll(rows: seq<Store.Row<User>>, cache: map<string, Cache.Cached<User>>, f: Store.Faults): Result<seq<User>, Store.StoreError>
  {
    CacheAside.ReadThrough(Cache.GetMany(cache, ListKey(), f.CacheOk(0)), Store.GetAll(rows, f.StoreOk(0)))
  }

  /** The cache a read by id leaves: unchanged on a hit, the database's user cached under its id on a miss that finds one. */
  function CacheAfterReadByID(rows: seq<Store.Row<User>>, cache: map<string, Cache.Cached<User>>, id: string, f: Store.Faults): map<string, Cache.Cached<User>>
  {
    CacheAside.CacheAfterRead(cache, IdKey(id), Store.GetByID(rows, id, f.StoreOk(0)), f)
  }

  class UserRepo {
    var rows: seq<Store.Row<User>>
    var cache: map<string, Cache.Cached<User>>

    ghost predicate Valid()
      reads this
    {
      Store.UniqueKeys(rows)
    }

    /** A cached list, if any, equals the database listing. */
    ghost predicate ListFresh()
      reads this
    {
      ListKey() in cache ==> cache[ListKey()] == Cache.Many(Store.Values(rows))
    }

    constructor ()
      ensures Valid() && ListFresh() && rows == [] && cache == map[]
    {
      rows := [];
      cache := map[];
    }

    /** Inserts the user, drops the cached list and caches the user under its id. */
    method AddUser(u: User, f: Store.Faults) returns (err: Outcome<Store.StoreError>)
      requires Valid()
      modifies this
      ensures Valid()
      ensures
        var created := Store.Create(old(rows), u.id, u, f.StoreOk(0));
        if created.Failure? then
          err == Fail(created.error) && rows == old(rows) && cache == old(cache)
        else
          && err == Pass
          && rows == created.value
          && cache == Cache.Set(Cache.Delete(old(cache), ListKey(), f.CacheOk(0)), IdKey(u.id), Cache.One(u), f.CacheOk(1))
      ensures err.Pass? ==> Store.Lookup(rows, u.id) == Some(u)
      ensures err.Pass? && f.CacheOk(0) ==> ListFresh()
    {
      var created := Store.Create(rows, u.id, u, f.StoreOk(0));
      if created.Failure? {
        return Fail(created.error);
      }
      Store.CreateAddsRow(rows, u.id, u, u.id);
      rows := created.value;
      cache := Cache.Delete(cache, ListKey(), f.CacheOk(0));
      cache := Cache.Set(cache, IdKey(u.id), Cache.One(u), f.CacheOk(1));
      RedisKeys.SameRecordKeysAsCache(Keys, u.id);
      Cache.KeyListIsShortest(Cache.KeyGenerator(Keys.prefix), u.id, "", "");
      err := Pass;
    }

    /** Writes `u` as user `id` and re-caches it under `id`; the cached list is left in place. */
    method UpdateUser(u: User, id: string, f: Store.Faults) returns (err: Outcome<Store.StoreError>)
      requires Valid()
      modifies this
      ensures Valid()
      ensures
        var updated := Store.Update(old(rows), id, u, f.StoreOk(0));
        if updated.Failure? then
          err == Fail(updated.error) && rows == old(rows) && cache == old(cache)
        else
          && err == Pass
          && rows == updated.value
          && cache == Cache.Set(Cache.Delete(old(cache), IdKey(id), f.CacheOk(0)), IdKey(id), Cache.One(u), f.CacheOk(1))
      ensures err.Pass? ==> Store.Lookup(rows, id) == Some(u)
      ensures ListKey() in old(cache) ==> ListKey() in cache && cache[ListKey()] == old(cache)[ListKey()]
    {
      var updated := Store.Update(rows, id, u, f.StoreOk(0));
      if updated.Failure? {
        return Fail(updated.error);
      }
      Store.ReplaceKeepsUnique(rows, id, u);
      Store.LookupReplace(rows, id, u, id);
      rows := updated.value;
      cache := Cache.Delete(cache, IdKey(id), f.CacheOk(0));
      cache := Cache.Set(cache, IdKey(id), Cache.One(u), f.CacheOk(1));
      RedisKeys.SameRecordKeysAsCache(Keys, id);
      Cache.KeyListIsShortest(Cache.KeyGenerator(Keys.prefix), id, "", "");
      err := Pass;
    }

    /**
     * Deletes user `id` and drops its cached record. The cached list is left in place, so
     * after deleting a stored user a previously fresh cached list is stale.
     */
    method DeleteUser(id: string, f: Store.Faults) returns (err: Outcome<Store.StoreError>)
      requires Valid()
      modifies this
      ensures Valid()
      ensures
        var deleted := Store.Delete(old(rows), id, f.StoreOk(0));
        if deleted.Failure? then
          err == Fail(deleted.error) && rows == old(rows) && cache == old(cache)
        else
          && err == Pass
          && rows == deleted.value
          && cache == Cache.Delete(old(cache), IdKey(id), f.CacheOk(0))
      ensures err.Pass? ==> Store.Lookup(rows, id) == None
      ensures old(ListFresh()) && err.Pass? && ListKey() in old(cache) && Store.Lookup(old(rows), id).Some? ==> !ListFresh()
    {
      var deleted := Store.Delete(rows, id, f.StoreOk(0));
      if deleted.Failure? {
        return Fail(deleted.error);
      }
      Store.RemoveKeepsUnique(rows, id);
      Store.LookupRemove(rows, id, id);
      Store.RemoveShrinks(rows, id);
      ghost var rows0 := rows;
      rows := deleted.value;
      cache := Cache.Delete(cache, IdKey(id), f.CacheOk(0));
      RedisKeys.SameRecordKeysAsCache(Keys, id);
      Cache.KeyListIsShortest(Cache.KeyGenerator(Keys.prefix), id, "", "");
      assert |Store.Values(rows)| == |rows|;
      err := Pass;
    }

    /** Returns the cached list if there is one, else the database listing, which it then caches. */
    method GetAllUser(f: Store.Faults) returns (r: Result<seq<User>, Store.StoreError>)
      modifies this
      ensures rows == old(rows)
      ensures r == ReadAll(old(rows), old(cache), f)
      ensures
        var read := Cache.GetMany(old(cache), ListKey(), f.CacheOk(0));
        if read.Hit? then
          r == Success(read.value) && cache == old(cache)
        else
          && r == Store.GetAll(rows, f.StoreOk(0))
          && cache == (if r.Success? then Cache.Set(old(cache), ListKey(), Cache.Many(r.value), f.CacheOk(1))
                       else old(cache))
      ensures old(ListFresh()) ==> ListFresh() && (r.Success? ==> r.value == Store.Values(rows))
    {
      var read := Cache.GetMany(cache, ListKey(), f.CacheOk(0));
      if read.Hit? {
        return Success(read.value);
      }
      r := Store.GetAll(rows, f.StoreOk(0));
      if r.Success? {
        cache := Cache.Set(cache, ListKey(), Cache.Many(r.value), f.CacheOk(1));
      }
    }

    /** Returns the cached user `id` if there is one, else the database's, which it then caches. */
    method GetUserByID(id: string, f: Store.Faults) returns (r: Result<User, Store.StoreError>)
      modifies this
      ensures rows == old(rows)
      ensures r == ReadByID(old(rows), old(cache), id, f)
      ensures cache == CacheAfterReadByID(old(rows), old(cache), id, f)
      ensures
        var read := Cache.GetOne(old(cache), IdKey(id), f.CacheOk(0));
        if read.Hit? then
          r == Success(read.value) && cache == old(cache)
        else
          && r == Store.GetByID(rows, id, f.StoreOk(0))
          && cache == (if r.Success? then Cache.Set(old(cache), IdKey(id), Cache.One(r.value), f.CacheOk(1))
                       else old(cache))
    {
      var read := Cache.GetOne(cache, IdKey(id), f.CacheOk(0));
      if read.Hit? {
        return Success(read.value);
      }
      r := Store.GetByID(rows, id, f.StoreOk(0));
      if r.Success? {
        cache := Cache.Set(cache, IdKey(id), Cache.One(r.value), f.CacheOk(1));
      }
    }

    /**
     * Returns the user cached under the email key if there is one, else the first stored
     * user with this email, which it then caches under the email key. The key does not
     * depend on the email asked for.
     */
    method GetUserByEmail(email: string, f: Store.Faults) returns (r: Result<User, Store.StoreError>)
      modifies this
      ensures rows == old(rows)
      ensures r == ReadByEmail(old(rows), old(cache), email, f)
      ensures
        var read := Cache.GetOne(old(cache), EmailKey(email), f.CacheOk(0));
        if read.Hit? then
          r == Success(read.value) && cache == old(cache)
        else
          && r == Store.GetByField(rows, HasEmail(email), f.StoreOk(0))
          && cache == (if r.Success? then Cache.Set(old(cache), EmailKey(email), Cache.One(r.value), f.CacheOk(1))
                       else old(cache))
      ensures EmailKey(email) == "users:email"
    {
      var read := Cache.GetOne(cache, EmailKey(email), f.CacheOk(0));
      if read.Hit? {
        return Success(read.value);
      }
      r := Store.GetByField(rows, HasEmail(email), f.StoreOk(0));
      if r.Success? {
        cache := Cache.Set(cache, EmailKey(email), Cache.One(r.value), f.CacheOk(1));
      }
    }
  }

  /**
   * Two users are stored; looking up the first one's email caches it under "users:email",
   * and the lookup of the second one's email then returns the first user.
   */
  method EmailLookupReturnsAnotherUser() returns (asked: string, got: Result<User, Store.StoreError>)
    ensures got.Success? && got.value.email != asked
  {
    var repo := new UserRepo();
    var alice := User("u1", "USER", "alice", "secret1", "alice@example.com", 0, 0);
    var bob := User("u2", "USER", "bobby", "secret2", "bob@example.com", 0, 0);
    var added := repo.AddUser(alice, Store.NoFaults);
    assert [] + [Store.Row("u1", alice)] == [Store.Row("u1", alice)];
    assert repo.rows == [Store.Row("u1", alice)];
    assert Store.Lookup([Store.Row("u1", alice)], "u2") == None by {
      assert "u1" != "u2" by { assert "u1"[1] != "u2"[1]; }
      assert [Store.Row("u1", alice)][1..] == [];
    }
    added := repo.AddUser(bob, Store.NoFaults);
    assert repo.rows == [Store.Row("u1", alice), Store.Row("u2", bob)];
    var first := repo.GetUserByEmail(alice.email, Store.NoFaults);
    assert first == Success(alice);
    asked := bob.email;
    got := repo.GetUserByEmail(asked, Store.NoFaults);
  }
}
