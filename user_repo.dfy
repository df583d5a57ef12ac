// internal/repository/user/user_repo.go: users in the database, cached under "users"
// (the list), "users:<id>" (one user) and "users:email:<email>" (lookup by email).
module UserRepository {
  import opened Wrappers
  import Cache
  import CacheAside
  import Store
  import opened UserModel

  const Keys: Cache.KeyGenerator := Cache.KeyGenerator("users")

  function ListKey(): string { Cache.KeyList(Keys) }
  function IdKey(id: string): string { Cache.KeyID(Keys, id) }
  function EmailKey(email: string): string { Cache.KeyField(Keys, "email", email) }

  /** The database lookup by the email column. */
  function HasEmail(email: string): User -> bool { (u: User) => u.email == email }

  /** What a read by id returns from a given state: the cached user on a hit, otherwise the database's answer. */
  function ReadByID(rows: seq<Store.Row<User>>, cache: map<string, Cache.Cached<User>>, id: string, f: Store.Faults): Result<User, Store.StoreError>
  {
    CacheAside.ReadThrough(Cache.GetOne(cache, IdKey(id), f.CacheOk(0)), Store.GetByID(rows, id, f.StoreOk(0)))
  }

  /** What a read by email returns from a given state. */
  function ReadByEmail(rows: seq<Store.Row<User>>, cache: map<string, Cache.Cached<User>>, email: string, f: Store.Faults): Result<User, Store.StoreError>
  {
    CacheAside.ReadThrough(Cache.GetOne(cache, EmailKey(email), f.CacheOk(0)), Store.GetByField(rows, HasEmail(email), f.StoreOk(0)))
  }

  /** What the listing returns from a given state. */
  function ReadAll(rows: seq<Store.Row<User>>, cache: map<string, Cache.Cached<User>>, f: Store.Faults): Result<seq<User>, Store.StoreError>
  {
    CacheAside.ReadThrough(Cache.GetMany(cache, ListKey(), f.CacheOk(0)), Store.GetAll(rows, f.StoreOk(0)))
  }

  /** The cache a read by id leaves: unchanged on a hit, the database's user cached under its id on a miss that finds one. */
  function CacheAfterReadByID(rows: seq<Store.Row<User>>, cache: map<string, Cache.Cached<User>>, id: string, f: Store.Faults): map<string, Cache.Cached<User>>
  {
    CacheAside.CacheAfterRead(cache, IdKey(id), Store.GetByID(rows, id, f.StoreOk(0)), f)
  }

  /**
   * The cache UpdateUser leaves: the stored user's email entry dropped once it is read,
   * then, after a successful write, the list dropped and `u` cached under its email and id.
   */
  function CacheAfterUpdate(rows: seq<Store.Row<User>>, cache: map<string, Cache.Cached<User>>, u: User, id: string, f: Store.Faults): map<string, Cache.Cached<User>>
  {
    var previous := Store.GetByID(rows, id, f.StoreOk(0));
    if previous.Failure? then cache
    else
      var cleared := Cache.Delete(cache, EmailKey(previous.value.email), f.CacheOk(0));
      if Store.Update(rows, id, u, f.StoreOk(1)).Failure? then cleared
      else Cache.Set(Cache.Set(Cache.Delete(cleared, ListKey(), f.CacheOk(1)), EmailKey(u.email), Cache.One(u), f.CacheOk(2)),
                     IdKey(id), Cache.One(u), f.CacheOk(3))
  }

  /** The cache a successful DeleteUser leaves: the list, the user's id entry and its email entry dropped. */
  function CacheAfterDelete(cache: map<string, Cache.Cached<User>>, id: string, user: User, f: Store.Faults): map<string, Cache.Cached<User>>
  {
    Cache.Delete(Cache.Delete(Cache.Delete(cache, ListKey(), f.CacheOk(0)), IdKey(id), f.CacheOk(1)), EmailKey(user.email), f.CacheOk(2))
  }

  /** Distinct emails are cached under distinct keys, none of which is the list key. */
  lemma EmailKeysAreDistinct(a: string, b: string)
    ensures EmailKey(a) == EmailKey(b) <==> a == b
    ensures EmailKey(a) != ListKey()
  {
    Cache.KeyFieldInjective(Keys, "email", a, b);
    Cache.KeyListIsShortest(Keys, a, "email", a);
  }

  class UserRepo {
    var rows: seq<Store.Row<User>>
    var cache: map<string, Cache.Cached<User>>

    ghost predicate Valid()
      reads this
    {
      Store.UniqueKeys(rows)
    }

    constructor ()
      ensures Valid() && rows == [] && cache == map[]
    {
      rows := [];
      cache := map[];
    }

    /** Inserts the user, drops the cached list and caches the user under its id. */
    method AddUser(u: User, f: Store.Faults) returns (err: Outcome<Store.StoreError>)
      requires Valid()
      modifies this
      ensures Valid()
      ensures
        var created := Store.Create(old(rows), u.id, u, f.StoreOk(0));
        if created.Failure? then
          err == Fail(created.error) && rows == old(rows) && cache == old(cache)
        else
          && err == Pass
          && rows == created.value
          && cache == Cache.Set(Cache.Delete(old(cache), ListKey(), f.CacheOk(0)), IdKey(u.id), Cache.One(u), f.CacheOk(1))
      ensures err.Pass? ==> Store.Lookup(rows, u.id) == Some(u)
    {
      var created := Store.Create(rows, u.id, u, f.StoreOk(0));
      if created.Failure? {
        return Fail(created.error);
      }
      Store.CreateAddsRow(rows, u.id, u, u.id);
      rows := created.value;
      cache := Cache.Delete(cache, ListKey(), f.CacheOk(0));
      cache := Cache.Set(cache, IdKey(u.id), Cache.One(u), f.CacheOk(1));
      err := Pass;
    }

    /**
     * Reads the stored user `id` from the database (not the cache), drops the cache entry
     * of its old email, writes `u` as user `id`, drops the cached list, and caches `u`
     * under its new email and under `id`.
     */
    method UpdateUser(u: User, id: string, f: Store.Faults) returns (err: Outcome<Store.StoreError>)
      requires Valid()
      modifies this
      ensures Valid()
      ensures
        var previous := Store.GetByID(old(rows), id, f.StoreOk(0));
        previous.Failure? ==> err == Fail(previous.error) && rows == old(rows) && cache == old(cache)
      ensures
        var previous := Store.GetByID(old(rows), id, f.StoreOk(0));
        previous.Success? ==>
          var cleared := Cache.Delete(old(cache), EmailKey(previous.value.email), f.CacheOk(0));
          var updated := Store.Update(old(rows), id, u, f.StoreOk(1));
          if updated.Failure? then
            err == Fail(updated.error) && rows == old(rows) && cache == cleared
          else
            && err == Pass
            && rows == updated.value
            && cache == Cache.Set(Cache.Set(Cache.Delete(cleared, ListKey(), f.CacheOk(1)),
                                            EmailKey(u.email), Cache.One(u), f.CacheOk(2)),
                                  IdKey(id), Cache.One(u), f.CacheOk(3))
      ensures err.Pass? ==> Store.Lookup(rows, id) == Some(u)
      ensures err.Pass? && f.CacheOk(3) ==> Cache.GetOne(cache, IdKey(id), true) == Cache.Hit(u)
      ensures cache == CacheAfterUpdate(old(rows), old(cache), u, id, f)
    {
      var previous := Store.GetByID(rows, id, f.StoreOk(0));
      if previous.Failure? {
        return Fail(previous.error);
      }
      cache := Cache.Delete(cache, EmailKey(previous.value.email), f.CacheOk(0));
      var updated := Store.Update(rows, id, u, f.StoreOk(1));
      if updated.Failure? {
        return Fail(updated.error);
      }
      Store.ReplaceKeepsUnique(rows, id, u);
      Store.LookupReplace(rows, id, u, id);
      rows := updated.value;
      cache := Cache.Delete(cache, ListKey(), f.CacheOk(1));
      cache := Cache.Set(cache, EmailKey(u.email), Cache.One(u), f.CacheOk(2));
      cache := Cache.Set(cache, IdKey(id), Cache.One(u), f.CacheOk(3));
      err := Pass;
    }

    /**
     * Deletes user `id`, then drops the cached list, the cached user and the cache entry
     * of `user`'s email (the caller passes the user it loaded).
     */
    method DeleteUser(id: string, user: User, f: Store.Faults) returns (err: Outcome<Store.StoreError>)
      requires Valid()
      modifies this
      ensures Valid()
      ensures
        var deleted := Store.Delete(old(rows), id, f.StoreOk(0));
        if deleted.Failure? then
          err == Fail(deleted.error) && rows == old(rows) && cache == old(cache)
        else
          && err == Pass
          && rows == deleted.value
          && cache == Cache.Delete(Cache.Delete(Cache.Delete(old(cache), ListKey(), f.CacheOk(0)),
                                                IdKey(id), f.CacheOk(1)),
                                   EmailKey(user.email), f.CacheOk(2))
      ensures err.Pass? ==> Store.Lookup(rows, id) == None
      ensures err.Pass? && f.CacheOk(1) && f.CacheOk(2) ==> IdKey(id) !in cache && EmailKey(user.email) !in cache
      ensures cache == if err.Pass? then CacheAfterDelete(old(cache), id, user, f) else old(cache)
    {
      var deleted := Store.Delete(rows, id, f.StoreOk(0));
      if deleted.Failure? {
        return Fail(deleted.error);
      }
      Store.RemoveKeepsUnique(rows, id);
      Store.LookupRemove(rows, id, id);
      rows := deleted.value;
      cache := Cache.Delete(cache, ListKey(), f.CacheOk(0));
      cache := Cache.Delete(cache, IdKey(id), f.CacheOk(1));
      cache := Cache.Delete(cache, EmailKey(user.email), f.CacheOk(2));
      err := Pass;
    }

    /** Returns the cached list if there is one, else the database listing, which it then caches. */
    method GetAllUser(f: Store.Faults) returns (r: Result<seq<User>, Store.StoreError>)
      modifies this
      ensures rows == old(rows)
      ensures r == ReadAll(old(rows), old(cache), f)
      ensures
        var read := Cache.GetMany(old(cache), ListKey(), f.CacheOk(0));
        if read.Hit? then
          r == Success(read.value) && cache == old(cache)
        else
          && r == Store.GetAll(rows, f.StoreOk(0))
          && cache == (if r.Success? then Cache.Set(old(cache), ListKey(), Cache.Many(r.value), f.CacheOk(1))
                       else old(cache))
    {
      var read := Cache.GetMany(cache, ListKey(), f.CacheOk(0));
      if read.Hit? {
        return Success(read.value);
      }
      r := Store.GetAll(rows, f.StoreOk(0));
      if r.Success? {
        cache := Cache.Set(cache, ListKey(), Cache.Many(r.value), f.CacheOk(1));
      }
    }

    /** Returns the cached user `id` if there is one, else the database's, which it then caches. */
    method GetUserByID(id: string, f: Store.Faults) returns (r: Result<User, Store.StoreError>)
      modifies this
      ensures rows == old(rows)
      ensures r == ReadByID(old(rows), old(cache), id, f)
      ensures cache == CacheAfterReadByID(old(rows), old(cache), id, f)
      ensures
        var read := Cache.GetOne(old(cache), IdKey(id), f.CacheOk(0));
        if read.Hit? then
          r == Success(read.value) && cache == old(cache)
        else
          && r == Store.GetByID(rows, id, f.StoreOk(0))
          && cache == (if r.Success? then Cache.Set(old(cache), IdKey(id), Cache.One(r.value), f.CacheOk(1))
                       else old(cache))
    {
      var read := Cache.GetOne(cache, IdKey(id), f.CacheOk(0));
      if read.Hit? {
        return Success(read.value);
      }
      r := Store.GetByID(rows, id, f.StoreOk(0));
      if r.Success? {
        cache := Cache.Set(cache, IdKey(id), Cache.One(r.value), f.CacheOk(1));
      }
    }

    /**
     * Returns the user cached under this email if there is one, else the first stored user
     * with this email, which it then caches under the email key.
     */
    method GetUserByEmail(email: string, f: Store.Faults) returns (r: Result<User, Store.StoreError>)
      modifies this
      ensures rows == old(rows)
      ensures r == ReadByEmail(old(rows), old(cache), email, f)
      ensures
        var read := Cache.GetOne(old(cache), EmailKey(email), f.CacheOk(0));
        if read.Hit? then
          r == Success(read.value) && cache == old(cache)
        else
          && r == Store.GetByField(rows, HasEmail(email), f.StoreOk(0))
          && cache == (if r.Success? then Cache.Set(old(cache), EmailKey(email), Cache.One(r.value), f.CacheOk(1))
                       else old(cache))
      ensures forall e :: e != email && EmailKey(e) in old(cache) ==> EmailKey(e) in cache && cache[EmailKey(e)] == old(cache)[EmailKey(e)]
    {
      var read := Cache.GetOne(cache, EmailKey(email), f.CacheOk(0));
      forall e | e != email ensures EmailKey(e) != EmailKey(email) {
        EmailKeysAreDistinct(e, email);
      }
      if read.Hit? {
        return Success(read.value);
      }
      r := Store.GetByField(rows, HasEmail(email), f.StoreOk(0));
      if r.Success? {
        cache := Cache.Set(cache, EmailKey(email), Cache.One(r.value), f.CacheOk(1));
      }
    }
  }

  /**
   * The same two-user scenario as with the earlier repository: with one key per email,
   * the second lookup misses the first user's entry and returns the user asked for.
   */
  method EmailLookupReturnsThatUser() returns (asked: string, got: Result<User, Store.StoreError>)
    ensures got.Success? && got.value.email == asked
  {
    var repo := new UserRepo();
    var alice := User("u1", "USER", "alice", "secret1", "alice@example.com", 0, 0);
    var bob := User("u2", "USER", "bobby", "secret2", "bob@example.com", 0, 0);
    var added := repo.AddUser(alice, Store.NoFaults);
    assert [] + [Store.Row("u1", alice)] == [Store.Row("u1", alice)];
    assert repo.rows == [Store.Row("u1", alice)];
    assert Store.Lookup([Store.Row("u1", alice)], "u2") == None by {
      assert "u1" != "u2" by { assert "u1"[1] != "u2"[1]; }
      assert [Store.Row("u1", alice)][1..] == [];
    }
    added := repo.AddUser(bob, Store.NoFaults);
    assert repo.rows == [Store.Row("u1", alice), Store.Row("u2", bob)];
    var first := repo.GetUserByEmail(alice.email, Store.NoFaults);
    asked := bob.email;
    EmailKeysAreDistinct(alice.email, asked);
    assert EmailKey(asked) !in repo.cache by {
      assert |EmailKey(asked)| != |IdKey("u1")|;
      assert |EmailKey(asked)| != |IdKey("u2")|;
    }
    assert Store.Find(repo.rows, HasEmail(asked)) == Some(bob) by {
      assert repo.rows[1..] == [Store.Row("u2", bob)];
    }
    got := repo.GetUserByEmail(asked, Store.NoFaults);
  }
}
