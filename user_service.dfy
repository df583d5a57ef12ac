// internal/module/user/user_svc.go: the user service. Registering a user publishes
// "user.create" (the welcome mail) and updating one publishes "user.update" (the notice).
// Password hashing and the field merge SetDefaultNotNilField are given as functions.
module UserSvc {
  import opened Wrappers
  import Store
  import Cache
  import opened UserModel
  import UserRepository
  import opened Broker
  import opened RabbitMQ

  datatype UserSvcError =
    | ErrCreateUser
    | ErrCreateSeller
    | ErrUpdateUser
    | ErrDeleteUser
    | ErrHashPassword
    | ErrUserNotFound
    | ErrSendEmailMessage
    | ErrVerifyUser
    | ErrSendWelcomeEmail
    | Unverified(reason: Invalid)
    | Unpublished(cause: PublishError)

  /** The record Save stores: the new id, both timestamps `now`, and the hashed password. */
  function Registered(u: User, id: string, now: int, hashed: string): (r: User)
    ensures r.id == id && r.createdAt == now && r.updatedAt == now && r.password == hashed
    ensures r.role == u.role && r.username == u.username && r.email == u.email
  {
    u.(id := id, createdAt := now, updatedAt := now, password := hashed)
  }

  class UserService {
    const userRepo: UserRepository.UserRepo
    const producer: Producer

    constructor (userRepo: UserRepository.UserRepo, producer: Producer)
      ensures this.userRepo == userRepo && this.producer == producer
    {
      this.userRepo := userRepo;
      this.producer := producer;
    }

    /**
     * Registers `u` under the new id `id`: an invalid user is ErrVerifyUser and a password
     * `hash` cannot digest is ErrCreateUser, both before any write; a failed insert is
     * ErrCreateUser with nothing published. After the insert it publishes "user.create"
     * with the stored record; a failed publish is ErrSendWelcomeEmail, the user stays stored.
     */
    method Save(u: User, id: string, now: int, hash: string -> Option<string>, f: Store.Faults, publishOk: bool)
      returns (err: Outcome<UserSvcError>)
      requires userRepo.Valid()
      modifies userRepo, producer
      ensures userRepo.Valid()
      ensures Verify(u).Fail? ==>
        err == Fail(ErrVerifyUser) && userRepo.rows == old(userRepo.rows) && producer.sent == old(producer.sent)
      ensures Verify(u).Pass? && hash(u.password).None? ==>
        err == Fail(ErrCreateUser) && userRepo.rows == old(userRepo.rows) && producer.sent == old(producer.sent)
      ensures Verify(u).Pass? && hash(u.password).Some? ==>
        var stored := Registered(u, id, now, hash(u.password).value);
        var created := Store.Create(old(userRepo.rows), id, stored, f.StoreOk(0));
        if created.Failure? then
          && err == Fail(ErrCreateUser)
          && userRepo.rows == old(userRepo.rows) && producer.sent == old(producer.sent)
        else
          && userRepo.rows == created.value
          && Store.Lookup(userRepo.rows, id) == Some(stored)
          && producer.sent == old(producer.sent) + (if publishOk then [UserEvent("user.create", stored)] else [])
          && err == (if publishOk then Pass else Fail(ErrSendWelcomeEmail))
      ensures Verify(u).Fail? || hash(u.password).None? ==> userRepo.cache == old(userRepo.cache)
      ensures Verify(u).Pass? && hash(u.password).Some? ==>
        var stored := Registered(u, id, now, hash(u.password).value);
        userRepo.cache ==
          if Store.Create(old(userRepo.rows), id, stored, f.StoreOk(0)).Failure? then old(userRepo.cache)
          else Cache.Set(Cache.Delete(old(userRepo.cache), UserRepository.ListKey(), f.CacheOk(0)),
                         UserRepository.IdKey(id), Cache.One(stored), f.CacheOk(1))
    {
      var user := u.(id := id);
      var verified := Verify(user);
      if verified.Fail? {
        return Fail(ErrVerifyUser);
      }
      user := user.(createdAt := now, updatedAt := now);
      var hashed := hash(user.password);
      if hashed.None? {
        return Fail(ErrCreateUser);
      }
      user := user.(password := hashed.value);
      var added := userRepo.AddUser(user, f);
      if added.Fail? {
        return Fail(ErrCreateUser);
      }
      var published := producer.Publishing(UserConfig("user.create"), Raw(UserPayload(user)), publishOk);
      if published.Fail? {
        return Fail(ErrSendWelcomeEmail);
      }
      err := Pass;
    }

    /**
     * Updates user `id` from `req`: an invalid request is returned as its own error and a
     * missing user is ErrUserNotFound, both before any write. The stored user merged with
     * the request by `setDefault` is written back (ErrUpdateUser on failure, nothing
     * published) and then published as "user.update"; a failed publish is returned as it
     * is. `loaded` is the user the read returned.
     */
    method Update(req: User, id: string, setDefault: (User, User) -> User,
                  fGet: Store.Faults, fPut: Store.Faults, publishOk: bool)
      returns (err: Outcome<UserSvcError>, ghost loaded: Option<User>)
      requires userRepo.Valid()
      modifies userRepo, producer
      ensures userRepo.Valid()
      ensures Verify(req).Fail? ==>
        && err == Fail(Unverified(Verify(req).error)) && loaded.None?
        && userRepo.rows == old(userRepo.rows) && producer.sent == old(producer.sent)
      ensures Verify(req).Pass? && loaded.None? ==>
        err == Fail(ErrUserNotFound) && userRepo.rows == old(userRepo.rows) && producer.sent == old(producer.sent)
      ensures loaded.Some? ==>
        var merged := setDefault(loaded.value, req);
        var previous := Store.GetByID(old(userRepo.rows), id, fPut.StoreOk(0));
        var updated := Store.Update(old(userRepo.rows), id, merged, fPut.StoreOk(1));
        if previous.Failure? || updated.Failure? then
          && err == Fail(ErrUpdateUser)
          && userRepo.rows == old(userRepo.rows) && producer.sent == old(producer.sent)
        else
          && userRepo.rows == updated.value
          && Store.Lookup(userRepo.rows, id) == Some(merged)
          && producer.sent == old(producer.sent) + (if publishOk then [UserEvent("user.update", merged)] else [])
          && err == (if publishOk then Pass else Fail(UserSvcError.Unpublished(PublishError)))
      ensures loaded.Some? ==> Verify(req).Pass?
      ensures Verify(req).Pass? ==>
        loaded == UserRepository.ReadByID(old(userRepo.rows), old(userRepo.cache), id, fGet).ToOption()
      ensures err.Pass? <==>
        && Verify(req).Pass? && loaded.Some?
        && fPut.StoreOk(0) && fPut.StoreOk(1) && Store.Lookup(old(userRepo.rows), id).Some? && publishOk
      ensures Verify(req).Fail? ==> userRepo.cache == old(userRepo.cache)
      ensures Verify(req).Pass? ==>
        var read := UserRepository.CacheAfterReadByID(old(userRepo.rows), old(userRepo.cache), id, fGet);
        userRepo.cache ==
          if loaded.None? then read
          else UserRepository.CacheAfterUpdate(old(userRepo.rows), read, setDefault(loaded.value, req), id, fPut)
    {
      loaded := None;
      var verified := Verify(req);
      if verified.Fail? {
        return Fail(Unverified(verified.error)), loaded;
      }
      var current := userRepo.GetUserByID(id, fGet);
      if current.Failure? {
        return Fail(ErrUserNotFound), loaded;
      }
      loaded := Some(current.value);
      var merged := setDefault(current.value, req);
      var updated := userRepo.UpdateUser(merged, id, fPut);
      if updated.Fail? {
        return Fail(ErrUpdateUser), loaded;
      }
      var published := producer.Publishing(UserConfig("user.update"), Raw(UserPayload(merged)), publishOk);
      if published.Fail? {
        return Fail(UserSvcError.Unpublished(published.error)), loaded;
      }
      err := Pass;
    }

    /**
     * Deletes user `id`: a missing user is ErrUserNotFound with nothing written; otherwise
     * the user is deleted along with its cache entries (ErrDeleteUser on failure).
     */
    method Delete(id: string, fGet: Store.Faults, fDel: Store.Faults)
      returns (err: Outcome<UserSvcError>, ghost loaded: Option<User>)
      requires userRepo.Valid()
      modifies userRepo
      ensures userRepo.Valid()
      ensures loaded.None? ==> err == Fail(ErrUserNotFound) && userRepo.rows == old(userRepo.rows)
      ensures loaded.Some? ==>
        var deleted := Store.Delete(old(userRepo.rows), id, fDel.StoreOk(0));
        if deleted.Failure? then err == Fail(ErrDeleteUser) && userRepo.rows == old(userRepo.rows)
        else err == Pass && userRepo.rows == deleted.value && Store.Lookup(userRepo.rows, id) == None
      ensures loaded == UserRepository.ReadByID(old(userRepo.rows), old(userRepo.cache), id, fGet).ToOption()
      ensures err.Pass? <==> loaded.Some? && fDel.StoreOk(0)
      ensures
        var read := UserRepository.CacheAfterReadByID(old(userRepo.rows), old(userRepo.cache), id, fGet);
        userRepo.cache == if err.Pass? then UserRepository.CacheAfterDelete(read, id, loaded.value, fDel) else read
    {
      var current := userRepo.GetUserByID(id, fGet);
      if current.Failure? {
        return Fail(ErrUserNotFound), None;
      }
      loaded := Some(current.value);
      var deleted := userRepo.DeleteUser(id, current.value, fDel);
      if deleted.Fail? {
        return Fail(ErrDeleteUser), loaded;
      }
      err := Pass;
    }

    /** All users, as the repository lists them; a failed listing is ErrUserNotFound. */
    method GetAll(f: Store.Faults) returns (r: Result<seq<User>, UserSvcError>)
      modifies userRepo
      ensures userRepo.rows == old(userRepo.rows)
      ensures r.Failure? ==> r.error == ErrUserNotFound
      ensures
        var read := Cache.GetMany(old(userRepo.cache), UserRepository.ListKey(), f.CacheOk(0));
        !read.Hit? ==> (r.Success? <==> Store.GetAll(old(userRepo.rows), f.StoreOk(0)).Success?)
      ensures
        var read := Cache.GetMany(old(userRepo.cache), UserRepository.ListKey(), f.CacheOk(0));
        !read.Hit? && r.Success? ==> r.value == Store.Values(old(userRepo.rows))
      ensures
        var read := UserRepository.ReadAll(old(userRepo.rows), old(userRepo.cache), f);
        (r.Success? <==> read.Success?) && (r.Success? ==> r.value == read.value)
    {
      var listed := userRepo.GetAllUser(f);
      if listed.Failure? {
        return Failure(ErrUserNotFound);
      }
      r := Success(listed.value);
    }

    /** User `id`, from the cache or the store; a miss in both is ErrUserNotFound. */
    method GetByID(id: string, f: Store.Faults) returns (r: Result<User, UserSvcError>)
      modifies userRepo
      ensures userRepo.rows == old(userRepo.rows)
      ensures r.Failure? ==> r.error == ErrUserNotFound
      ensures
        var read := Cache.GetOne(old(userRepo.cache), UserRepository.IdKey(id), f.CacheOk(0));
        !read.Hit? ==> (r.Success? <==> f.StoreOk(0) && Store.Lookup(old(userRepo.rows), id).Some?)
                       && (r.Success? ==> Some(r.value) == Store.Lookup(old(userRepo.rows), id))
      ensures
        var read := UserRepository.ReadByID(old(userRepo.rows), old(userRepo.cache), id, f);
        (r.Success? <==> read.Success?) && (r.Success? ==> r.value == read.value)
    {
      var found := userRepo.GetUserByID(id, f);
      if found.Failure? {
        return Failure(ErrUserNotFound);
      }
      r := Success(found.value);
    }

    /** The user with this email, from the cache or the store; a miss in both is ErrUserNotFound. */
    method GetByEmail(email: string, f: Store.Faults) returns (r: Result<User, UserSvcError>)
      modifies userRepo
      ensures userRepo.rows == old(userRepo.rows)
      ensures r.Failure? ==> r.error == ErrUserNotFound
      ensures
        var read := Cache.GetOne(old(userRepo.cache), UserRepository.EmailKey(email), f.CacheOk(0));
        !read.Hit? && r.Success? ==> r.value.email == email
      ensures
        var read := Cache.GetOne(old(userRepo.cache), UserRepository.EmailKey(email), f.CacheOk(0));
        !read.Hit? ==>
          (r.Success? <==> f.StoreOk(0) && exists i :: 0 <= i < |old(userRepo.rows)| && old(userRepo.rows)[i].value.email == email)
      ensures
        var read := UserRepository.ReadByEmail(old(userRepo.rows), old(userRepo.cache), email, f);
        (r.Success? <==> read.Success?) && (r.Success? ==> r.value == read.value)
    {
      var found := userRepo.GetUserByEmail(email, f);
      if found.Failure? {
        return Failure(ErrUserNotFound);
      }
      r := Success(found.value);
    }
  }

  /**
   * A successful registration is followed, once its event is consumed, by a welcome mail to
   * the registered email; a successful update, by a notice to the merged user's email.
   */
  lemma RegistrationMailsTheUser(u: User, merged: User)
    ensures RouteMailByKey(Delivered(UserEvent("user.create", u))) == Some(Welcome([u.email]))
    ensures RouteMailByKey(Delivered(UserEvent("user.update", merged)))
         == Some(Notice("User Update", [merged.email], merged.email, merged.updatedAt))
  {
    UserEventRoutes("user.create", u);
    UserEventRoutes("user.update", merged);
  }
}
