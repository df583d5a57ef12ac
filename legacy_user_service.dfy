// module/user/user_svc.go: the earlier user service over the earlier repository. It
// registers users and sellers (the role is fixed by the service, never by the request),
// and updates a user by merging the request into the stored record.
module LegacyUserSvc {
  import opened Wrappers
  import Store
  import Cache
  import opened UserModel
  import LegacyUserRepository

  // module/user/user_errs.go
  datatype LegacyUserError = ErrCreateUser | ErrCreateSeller | ErrUpdateUser | ErrDeleteUser | ErrUserNotFound

  /**
   * The record registration stores: the new id, `role`, both timestamps `now`, and the
   * password hash, which is empty when hashing fails (the service ignores the error).
   */
  function Enrolled(u: User, id: string, role: string, now: int, hashed: Option<string>): (r: User)
    ensures r.id == id && r.role == role && r.createdAt == now && r.updatedAt == now
    ensures r.username == u.username && r.email == u.email
    ensures r.password == (if hashed.Some? then hashed.value else "")
  {
    u.(id := id, role := role, createdAt := now, updatedAt := now,
       password := if hashed.Some? then hashed.value else "")
  }

  /**
   * The record Update writes for request `u` over the stored user `stored`: every empty
   * username, password or email is taken from `stored`, the role is always the stored one,
   * and the update time is `now`; the request's id and creation time are kept.
   */
  function Merged(u: User, stored: User, now: int): (r: User)
    ensures r.role == stored.role && r.updatedAt == now
    ensures r.id == u.id && r.createdAt == u.createdAt
    ensures u.username != "" ==> r.username == u.username
    ensures u.username == "" ==> r.username == stored.username
    ensures u.password != "" ==> r.password == u.password
    ensures u.password == "" ==> r.password == stored.password
    ensures u.email != "" ==> r.email == u.email
    ensures u.email == "" ==> r.email == stored.email
  {
    User(u.id, stored.role,
         if u.username == "" then stored.username else u.username,
         if u.password == "" then stored.password else u.password,
         if u.email == "" then stored.email else u.email,
         u.createdAt, now)
  }

  /** Merging twice with the same stored user and time changes nothing more. */
  lemma MergeIsIdempotent(u: User, stored: User, now: int)
    ensures Merged(Merged(u, stored, now), stored, now) == Merged(u, stored, now)
  {
  }

  /** An update can neither grant nor revoke a role, whatever the request carries. */
  lemma UpdateKeepsRole(u: User, stored: User, now: int)
    ensures IsSeller(Merged(u, stored, now)) <==> IsSeller(stored)
    ensures IsAdmin(Merged(u, stored, now)) <==> IsAdmin(stored)
  {
  }

  /** Resubmitting the stored record (same id and creation time) only moves its update time. */
  lemma ResubmittingChangesOnlyUpdateTime(stored: User, now: int)
    ensures Merged(stored, stored, now) == stored.(updatedAt := now)
  {
  }

  class UserService {
    const userRepo: LegacyUserRepository.UserRepo

    constructor (userRepo: LegacyUserRepository.UserRepo)
      ensures this.userRepo == userRepo
    {
      this.userRepo := userRepo;
    }

    /** Registers `u` as a "USER" under the new id `id`; a failed insert is ErrCreateUser. */
    method SaveUser(u: User, id: string, now: int, hash: string -> Option<string>, f: Store.Faults)
      returns (err: Outcome<LegacyUserError>)
      requires userRepo.Valid()
      modifies userRepo
      ensures userRepo.Valid()
      ensures
        var stored := Enrolled(u, id, "USER", now, hash(u.password));
        var created := Store.Create(old(userRepo.rows), id, stored, f.StoreOk(0));
        if created.Failure? then err == Fail(ErrCreateUser) && userRepo.rows == old(userRepo.rows)
        else err == Pass && userRepo.rows == created.value && Store.Lookup(userRepo.rows, id) == Some(stored)
      ensures err.Pass? ==> Store.Lookup(userRepo.rows, id).Some? && !IsSeller(Store.Lookup(userRepo.rows, id).value)
      ensures
        var stored := Enrolled(u, id, "USER", now, hash(u.password));
        userRepo.cache ==
          if err.Fail? then old(userRepo.cache)
          else Cache.Set(Cache.Delete(old(userRepo.cache), LegacyUserRepository.ListKey(), f.CacheOk(0)),
                         LegacyUserRepository.IdKey(id), Cache.One(stored), f.CacheOk(1))
      ensures err.Pass? && f.CacheOk(0) ==> userRepo.ListFresh()
    {
      var user := u.(id := id, role := "USER", createdAt := now, updatedAt := now);
      var hashed := hash(user.password);
      user := user.(password := if hashed.Some? then hashed.value else "");
      var added := userRepo.AddUser(user, f);
      if added.Fail? {
        return Fail(ErrCreateUser);
      }
      err := Pass;
    }

    /** Registers `u` as a "SELLER" under the new id `id`; a failed insert is ErrCreateSeller. */
    method SaveSeller(u: User, id: string, now: int, hash: string -> Option<string>, f: Store.Faults)
      returns (err: Outcome<LegacyUserError>)
      requires userRepo.Valid()
      modifies userRepo
      ensures userRepo.Valid()
      ensures
        var stored := Enrolled(u, id, "SELLER", now, hash(u.password));
        var created := Store.Create(old(userRepo.rows), id, stored, f.StoreOk(0));
        if created.Failure? then err == Fail(ErrCreateSeller) && userRepo.rows == old(userRepo.rows)
        else err == Pass && userRepo.rows == created.value && Store.Lookup(userRepo.rows, id) == Some(stored)
      ensures err.Pass? ==> Store.Lookup(userRepo.rows, id).Some? && IsSeller(Store.Lookup(userRepo.rows, id).value)
      ensures
        var stored := Enrolled(u, id, "SELLER", now, hash(u.password));
        userRepo.cache ==
          if err.Fail? then old(userRepo.cache)
          else Cache.Set(Cache.Delete(old(userRepo.cache), LegacyUserRepository.ListKey(), f.CacheOk(0)),
                         LegacyUserRepository.IdKey(id), Cache.One(stored), f.CacheOk(1))
      ensures err.Pass? && f.CacheOk(0) ==> userRepo.ListFresh()
    {
      var user := u.(id := id, role := "SELLER", createdAt := now, updatedAt := now);
      var hashed := hash(user.password);
      user := user.(password := if hashed.Some? then hashed.value else "");
      var added := userRepo.AddUser(user, f);
      if added.Fail? {
        return Fail(ErrCreateSeller);
      }
      err := Pass;
    }

    /**
     * Updates user `id` from `u`: a missing user is ErrUserNotFound with nothing written;
     * otherwise the request is filled in field by field from the loaded user `loaded` and
     * written as user `id` (ErrUpdateUser on failure).
     */
    method Update(u: User, id: string, now: int, fGet: Store.Faults, fPut: Store.Faults)
      returns (err: Outcome<LegacyUserError>, ghost loaded: Option<User>)
      requires userRepo.Valid()
      modifies userRepo
      ensures userRepo.Valid()
      ensures loaded.None? ==> err == Fail(ErrUserNotFound) && userRepo.rows == old(userRepo.rows)
      ensures loaded.Some? ==>
        var updated := Store.Update(old(userRepo.rows), id, Merged(u, loaded.value, now), fPut.StoreOk(0));
        if updated.Failure? then err == Fail(ErrUpdateUser) && userRepo.rows == old(userRepo.rows)
        else
          && err == Pass && userRepo.rows == updated.value
          && Store.Lookup(userRepo.rows, id) == Some(Merged(u, loaded.value, now))
          && Store.Lookup(userRepo.rows, id).value.role == loaded.value.role
      ensures loaded == LegacyUserRepository.ReadByID(old(userRepo.rows), old(userRepo.cache), id, fGet).ToOption()
      ensures err.Pass? <==> loaded.Some? && fPut.StoreOk(0) && Store.Lookup(old(userRepo.rows), id).Some?
      ensures
        var read := LegacyUserRepository.CacheAfterReadByID(old(userRepo.rows), old(userRepo.cache), id, fGet);
        userRepo.cache ==
          if err.Pass? then
            Cache.Set(Cache.Delete(read, LegacyUserRepository.IdKey(id), fPut.CacheOk(0)),
                      LegacyUserRepository.IdKey(id), Cache.One(Merged(u, loaded.value, now)), fPut.CacheOk(1))
          else read
    {
      var current := userRepo.GetUserByID(id, fGet);
      if current.Failure? {
        return Fail(ErrUserNotFound), None;
      }
      var oldUser := current.value;
      loaded := Some(oldUser);
      var user := u;
      if user.username == "" {
        user := user.(username := oldUser.username);
      }
      if user.password == "" {
        user := user.(password := oldUser.password);
      }
      if user.email == "" {
        user := user.(email := oldUser.email);
      }
      user := user.(role := oldUser.role, updatedAt := now);
      var written := userRepo.UpdateUser(user, id, fPut);
      if written.Fail? {
        return Fail(ErrUpdateUser), loaded;
      }
      err := Pass;
    }

    /** Deletes user `id`: a missing user is ErrUserNotFound, a failed delete ErrDeleteUser. */
    method Delete(id: string, fGet: Store.Faults, fDel: Store.Faults)
      returns (err: Outcome<LegacyUserError>, ghost loaded: Option<User>)
      requires userRepo.Valid()
      modifies userRepo
      ensures userRepo.Valid()
      ensures loaded.None? ==> err == Fail(ErrUserNotFound) && userRepo.rows == old(userRepo.rows)
      ensures loaded.Some? ==>
        var deleted := Store.Delete(old(userRepo.rows), id, fDel.StoreOk(0));
        if deleted.Failure? then err == Fail(ErrDeleteUser) && userRepo.rows == old(userRepo.rows)
        else err == Pass && userRepo.rows == deleted.value && Store.Lookup(userRepo.rows, id) == None
      ensures loaded == LegacyUserRepository.ReadByID(old(userRepo.rows), old(userRepo.cache), id, fGet).ToOption()
      ensures err.Pass? <==> loaded.Some? && fDel.StoreOk(0)
      ensures
        var read := LegacyUserRepository.CacheAfterReadByID(old(userRepo.rows), old(userRepo.cache), id, fGet);
        userRepo.cache == if err.Pass? then Cache.Delete(read, LegacyUserRepository.IdKey(id), fDel.CacheOk(0)) else read
    {
      var current := userRepo.GetUserByID(id, fGet);
      if current.Failure? {
        return Fail(ErrUserNotFound), None;
      }
      loaded := Some(current.value);
      var deleted := userRepo.DeleteUser(id, fDel);
      if deleted.Fail? {
        return Fail(ErrDeleteUser), loaded;
      }
      err := Pass;
    }

    /** User `id` from the cache or the store; a miss in both is ErrUserNotFound. */
    method GetByID(id: string, f: Store.Faults) returns (r: Result<User, LegacyUserError>)
      modifies userRepo
      ensures userRepo.rows == old(userRepo.rows)
      ensures r.Failure? ==> r.error == ErrUserNotFound
      ensures
        var read := Cache.GetOne(old(userRepo.cache), LegacyUserRepository.IdKey(id), f.CacheOk(0));
        !read.Hit? ==> (r.Success? <==> f.StoreOk(0) && Store.Lookup(old(userRepo.rows), id).Some?)
                       && (r.Success? ==> Some(r.value) == Store.Lookup(old(userRepo.rows), id))
      ensures
        var read := LegacyUserRepository.ReadByID(old(userRepo.rows), old(userRepo.cache), id, f);
        (r.Success? <==> read.Success?) && (r.Success? ==> r.value == read.value)
    {
      var found := userRepo.GetUserByID(id, f);
      if found.Failure? {
        return Failure(ErrUserNotFound);
      }
      r := Success(found.value);
    }

    /** All users; with a fresh cached list (or none) it is the stored listing. */
    method GetAll(f: Store.Faults) returns (r: Result<seq<User>, LegacyUserError>)
      modifies userRepo
      ensures userRepo.rows == old(userRepo.rows)
      ensures r.Failure? ==> r.error == ErrUserNotFound
      ensures old(userRepo.ListFresh()) ==> userRepo.ListFresh() && (r.Success? ==> r.value == Store.Values(userRepo.rows))
      ensures
        var read := LegacyUserRepository.ReadAll(old(userRepo.rows), old(userRepo.cache), f);
        (r.Success? <==> read.Success?) && (r.Success? ==> r.value == read.value)
      ensures old(userRepo.ListFresh()) && f.StoreOk(0) ==> r.Success?
    {
      var listed := userRepo.GetAllUser(f);
      if listed.Failure? {
        return Failure(ErrUserNotFound);
      }
      r := Success(listed.value);
    }
  }
}
