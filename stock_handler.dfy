// The switch arms shared by the stock consumers of internal/message_broker/rabbitmq.go,
// consume.go and stock_consume.go: one decoded stock message becomes one call of the
// stock service.
module StockHandler {
  import opened Wrappers
  import Store
  import Cache
  import CacheAside
  import StockRepository
  import opened StockModel
  import opened StockSvc

  /** A decoded stock message: the service call it asks for, with the product and quantity it carries. */
  datatype StockCommand =
    | CreateStock(productID: string, quantity: int)
    | UpdateStock(productID: string, quantity: int)
    | IncreaseStock(productID: string, quantity: int)
    | DecreaseStock(productID: string, quantity: int)

  /** What the environment supplies to one handler call: the clock, the repository faults and the outcome of Update. */
  datatype HandlerEnv = HandlerEnv(now: int, fGet: Store.Faults, fPut: Store.Faults, updateOutcome: Outcome<StockSvcError>)

  /**
   * The stored level of the command's product after the command succeeds, given the level
   * before; a decrease into debt leaves it as it was. UpdateStock has no implementation
   * and is given no effect here.
   */
  function Applied(level: Option<int>, cmd: StockCommand): Option<int>
  {
    match cmd
    case CreateStock(_, q) => Some(Clamped(q))
    case UpdateStock(_, _) => level
    case IncreaseStock(_, q) => if level.Some? then Some(level.value + q) else None
    case DecreaseStock(_, q) =>
      if level.Some? && Decreased(level.value, q).Success? then Some(level.value - q) else level
  }

  /** An order's decrease followed by the matching increase restores the level whenever the decrease succeeds. */
  lemma DecreaseThenIncreaseRestoresLevel(level: int, productID: string, q: int)
    requires level >= 0
    ensures
      var after := Applied(Some(level), DecreaseStock(productID, q));
      q <= level <==> after == Some(level - q) && Applied(after, IncreaseStock(productID, q)) == Some(level)
  {
    DecreaseThenIncreaseRestores(level, q);
  }

  /** Every handled command creates stock or decreases it: none can raise a level above what it was or create one below zero. */
  predicate OnlyCreateOrDecrease(handled: seq<(nat, StockCommand)>)
  {
    forall j :: 0 <= j < |handled| ==> handled[j].1.CreateStock? || handled[j].1.DecreaseStock?
  }

  lemma OnlyCreateOrDecreaseAppend(handled: seq<(nat, StockCommand)>, h: (nat, StockCommand))
    ensures OnlyCreateOrDecrease(handled + [h]) <==> OnlyCreateOrDecrease(handled) && (h.1.CreateStock? || h.1.DecreaseStock?)
  {
    assert forall j :: 0 <= j < |handled| ==> (handled + [h])[j] == handled[j];
    assert (handled + [h])[|handled|] == h;
  }

  /** The database rows and cache one handler call starts from. */
  datatype RepoState = RepoState(rows: seq<Store.Row<StockRow>>, cache: map<string, Cache.Cached<StockRow>>)

  /**
   * The outcome and the state (rows and cache) one handler call produces from state `s`:
   * the effect of the service method the command names. UpdateStock has no
   * implementation, so only its outcome is fixed.
   */
  ghost predicate Handles(s: RepoState, cmd: StockCommand, env: HandlerEnv, err: Outcome<StockSvcError>, s': RepoState)
  {
    match cmd
    case CreateStock(p, q) => CreateHandled(s, p, q, env, err, s')
    case UpdateStock(_, _) => err == env.updateOutcome
    case IncreaseStock(p, q) => IncreaseEffect(s.rows, s.cache, p, q, env.now, env.fGet, env.fPut, err, s'.rows, s'.cache)
    case DecreaseStock(p, q) => DecreaseEffect(s.rows, s.cache, p, q, env.now, env.fGet, env.fPut, err, s'.rows, s'.cache)
  }

  /** CreateStock: the clamped level is inserted and cached with the list key dropped, or nothing changes. */
  ghost predicate CreateHandled(s: RepoState, p: string, q: int, env: HandlerEnv, err: Outcome<StockSvcError>, s': RepoState)
  {
    var row := StockRow(p, Clamped(q), env.now, env.now);
    var created := Store.Create(s.rows, p, row, env.fPut.StoreOk(0));
    if created.Failure? then err == Fail(ErrCreateStock) && s' == s
    else
      && err == Pass
      && s'.rows == created.value
      && s'.cache == Cache.Set(Cache.Delete(s.cache, Cache.KeyList(StockRepository.Keys), env.fPut.CacheOk(0)),
                               StockRepository.ProductKey(p), Cache.One(row), env.fPut.CacheOk(1))
  }

  /**
   * The cache writes a command needs to succeed so that the cache stays coherent: the
   * list key must be dropped, and a written-back record's key either dropped or set.
   * UpdateStock's effect is unknown, so nothing is promised for it.
   */
  predicate CacheWritesOk(cmd: StockCommand, env: HandlerEnv)
  {
    match cmd
    case CreateStock(_, _) => env.fPut.CacheOk(0)
    case UpdateStock(_, _) => false
    case IncreaseStock(_, _) => env.fPut.CacheOk(1) && (env.fPut.CacheOk(0) || env.fPut.CacheOk(2))
    case DecreaseStock(_, _) => env.fPut.CacheOk(1) && (env.fPut.CacheOk(0) || env.fPut.CacheOk(2))
  }

  /** Every handled command's cache writes succeed. */
  predicate AllCacheWritesOk(handled: seq<(nat, StockCommand)>, env: nat -> HandlerEnv)
  {
    forall k :: 0 <= k < |handled| ==> CacheWritesOk(handled[k].1, env(handled[k].0))
  }

  /** A handled command keeps every record under its product id and, when its cache writes succeed, keeps the cache coherent. */
  lemma HandledKeepsCoherent(s: RepoState, cmd: StockCommand, env: HandlerEnv, err: Outcome<StockSvcError>, s': RepoState)
    requires StockRepository.KeyedByProduct(s.rows) && CacheAside.Coherent(StockRepository.Scheme, s.rows, s.cache)
    requires Handles(s, cmd, env, err, s') && CacheWritesOk(cmd, env)
    ensures CacheAside.Coherent(StockRepository.Scheme, s'.rows, s'.cache)
  {
    match cmd
    case CreateStock(p, q) =>
      if err.Pass? {
        var row := StockRow(p, Clamped(q), env.now, env.now);
        forall k ensures Store.Lookup(s'.rows, k) == if k == p then Some(row) else Store.Lookup(s.rows, k) {
          Store.LookupAppend(s.rows, Store.Row(p, row), k);
        }
        CacheAside.WriteKeepsCoherent(StockRepository.Scheme, s.rows, s'.rows, s.cache, s'.cache, p);
      }
    case IncreaseStock(p, q) =>
      IncreaseEffectCoherent(s.rows, s.cache, p, q, env.now, env.fGet, env.fPut, err, s'.rows, s'.cache);
    case DecreaseStock(p, q) =>
      DecreaseEffectCoherent(s.rows, s.cache, p, q, env.now, env.fGet, env.fPut, err, s'.rows, s'.cache);
  }

  /**
   * From a coherent state, a handled command moves only its own product's level and only
   * when it succeeds, and a success moves it exactly as `Applied` says: the level the
   * read-through saw, changed by the command, is the level the database holds afterwards.
   */
  lemma HandledLevels(s: RepoState, cmd: StockCommand, env: HandlerEnv, err: Outcome<StockSvcError>, s': RepoState, other: string)
    requires StockRepository.KeyedByProduct(s.rows) && CacheAside.Coherent(StockRepository.Scheme, s.rows, s.cache)
    requires Handles(s, cmd, env, err, s') && !cmd.UpdateStock?
    ensures err.Fail? ==> s'.rows == s.rows
    ensures other != cmd.productID || err.Fail? ==>
      StockRepository.Level(s'.rows, other) == StockRepository.Level(s.rows, other)
    ensures err.Pass? ==>
      StockRepository.Level(s'.rows, cmd.productID) == Applied(StockRepository.Level(s.rows, cmd.productID), cmd)
  {
    match cmd
    case CreateStock(p, q) =>
      CreateLevels(s, p, q, env, err, s', other);
    case IncreaseStock(p, q) =>
      IncreaseLevels(s.rows, s.cache, p, q, env, err, s'.rows, s'.cache, other);
    case DecreaseStock(p, q) =>
      DecreaseLevels(s.rows, s.cache, p, q, env, err, s'.rows, s'.cache, other);
  }

  /** HandledLevels for a create: the inserted record is the product's, and no other record moves. */
  lemma CreateLevels(s: RepoState, p: string, q: int, env: HandlerEnv, err: Outcome<StockSvcError>, s': RepoState, other: string)
    requires CreateHandled(s, p, q, env, err, s')
    ensures err.Fail? ==> s'.rows == s.rows
    ensures other != p || err.Fail? ==> StockRepository.Level(s'.rows, other) == StockRepository.Level(s.rows, other)
    ensures err.Pass? ==> StockRepository.Level(s'.rows, p) == Some(Clamped(q))
  {
    var row := StockRow(p, Clamped(q), env.now, env.now);
    Store.LookupAppend(s.rows, Store.Row(p, row), other);
    Store.LookupAppend(s.rows, Store.Row(p, row), p);
  }

  /** HandledLevels for an increase, from the state it starts in and the one it leaves. */
  lemma IncreaseLevels(rows: seq<Store.Row<StockRow>>, cache: map<string, Cache.Cached<StockRow>>, p: string, q: int,
                       env: HandlerEnv, err: Outcome<StockSvcError>,
                       rows': seq<Store.Row<StockRow>>, cache': map<string, Cache.Cached<StockRow>>, other: string)
    requires StockRepository.KeyedByProduct(rows) && CacheAside.Coherent(StockRepository.Scheme, rows, cache)
    requires IncreaseEffect(rows, cache, p, q, env.now, env.fGet, env.fPut, err, rows', cache')
    ensures err.Fail? ==> rows' == rows
    ensures other != p || err.Fail? ==> StockRepository.Level(rows', other) == StockRepository.Level(rows, other)
    ensures err.Pass? ==> StockRepository.Level(rows', p) == Applied(StockRepository.Level(rows, p), IncreaseStock(p, q))
  {
    IncreaseEffectFacts(rows, cache, p, q, env.now, env.fGet, env.fPut, err, rows', cache');
    IncreaseEffectCoherent(rows, cache, p, q, env.now, env.fGet, env.fPut, err, rows', cache');
    if err.Pass? {
      var loaded := CacheAside.ReadOne(StockRepository.Scheme, rows, cache, p, env.fGet).ToOption().value;
      Store.LookupReplace(rows, p, loaded.(quantity := loaded.quantity + q, updatedAt := env.now), other);
    }
  }

  /** HandledLevels for a decrease, from the state it starts in and the one it leaves. */
  lemma DecreaseLevels(rows: seq<Store.Row<StockRow>>, cache: map<string, Cache.Cached<StockRow>>, p: string, q: int,
                       env: HandlerEnv, err: Outcome<StockSvcError>,
                       rows': seq<Store.Row<StockRow>>, cache': map<string, Cache.Cached<StockRow>>, other: string)
    requires StockRepository.KeyedByProduct(rows) && CacheAside.Coherent(StockRepository.Scheme, rows, cache)
    requires DecreaseEffect(rows, cache, p, q, env.now, env.fGet, env.fPut, err, rows', cache')
    ensures err.Fail? ==> rows' == rows
    ensures other != p || err.Fail? ==> StockRepository.Level(rows', other) == StockRepository.Level(rows, other)
    ensures err.Pass? ==> StockRepository.Level(rows', p) == Applied(StockRepository.Level(rows, p), DecreaseStock(p, q))
  {
    DecreaseEffectFacts(rows, cache, p, q, env.now, env.fGet, env.fPut, err, rows', cache');
    DecreaseEffectCoherent(rows, cache, p, q, env.now, env.fGet, env.fPut, err, rows', cache');
    if err.Pass? {
      var loaded := CacheAside.ReadOne(StockRepository.Scheme, rows, cache, p, env.fGet).ToOption().value;
      Store.LookupReplace(rows, p, loaded.(quantity := loaded.quantity - q, updatedAt := env.now), other);
    }
  }

  /**
   * `states` is the run of a handler loop: every state keeps each record under its
   * product id, and state k + 1 is what command k of `handled`, run from state k with its
   * delivery's environment, left behind, rows and cache alike.
   */
  ghost predicate Trace(states: seq<RepoState>, handled: seq<(nat, StockCommand)>,
                        outcomes: seq<Outcome<StockSvcError>>, env: nat -> HandlerEnv)
    decreases |handled|
  {
    && |states| == |handled| + 1
    && |outcomes| == |handled|
    && StockRepository.KeyedByProduct(states[|handled|].rows)
    && (|handled| == 0 ||
        var n := |handled| - 1;
        && Trace(states[..n + 1], handled[..n], outcomes[..n], env)
        && Handles(states[n], handled[n].1, env(handled[n].0), outcomes[n], states[n + 1]))
  }

  /** Step k of a run: its start state is keyed by product, and the command took it to state k + 1. */
  lemma {:induction false} TraceStep(states: seq<RepoState>, handled: seq<(nat, StockCommand)>,
                                     outcomes: seq<Outcome<StockSvcError>>, env: nat -> HandlerEnv, k: nat)
    requires Trace(states, handled, outcomes, env) && k <= |handled|
    ensures StockRepository.KeyedByProduct(states[k].rows)
    ensures k < |handled| ==> Handles(states[k], handled[k].1, env(handled[k].0), outcomes[k], states[k + 1])
    decreases |handled|
  {
    if k < |handled| {
      var n := |handled| - 1;
      TraceStep(states[..n + 1], handled[..n], outcomes[..n], env, k);
      if k < n {
        assert states[..n + 1][k] == states[k] && states[..n + 1][k + 1] == states[k + 1];
        assert handled[..n][k] == handled[k] && outcomes[..n][k] == outcomes[k];
      } else {
        assert states[..n + 1][k] == states[k];
      }
    }
  }

  /** One more handled command extends a run by the state it leaves behind. */
  lemma TraceAppend(states: seq<RepoState>, handled: seq<(nat, StockCommand)>, outcomes: seq<Outcome<StockSvcError>>,
                    env: nat -> HandlerEnv, h: (nat, StockCommand), err: Outcome<StockSvcError>, s': RepoState)
    requires Trace(states, handled, outcomes, env)
    requires StockRepository.KeyedByProduct(s'.rows)
    requires Handles(states[|handled|], h.1, env(h.0), err, s')
    ensures Trace(states + [s'], handled + [h], outcomes + [err], env)
  {
    var n := |handled|;
    assert (states + [s'])[..n + 1] == states;
    assert (handled + [h])[..n] == handled && (outcomes + [err])[..n] == outcomes;
  }

  /**
   * The level of product `p` after a run of commands that started from `level`: each
   * successful command for `p` changes it as `Applied` says; failed commands and
   * commands for other products leave it alone.
   */
  ghost function LevelAfter(level: Option<int>, handled: seq<(nat, StockCommand)>,
                            outcomes: seq<Outcome<StockSvcError>>, p: string): Option<int>
    requires |outcomes| == |handled|
  {
    if |handled| == 0 then level
    else
      var n := |handled| - 1;
      var before := LevelAfter(level, handled[..n], outcomes[..n], p);
      if handled[n].1.productID == p && outcomes[n].Pass? then Applied(before, handled[n].1) else before
  }

  /**
   * A run from a coherent state whose cache writes all succeed stays coherent, and after
   * its first `n` commands every product's stored level is the fold of `Applied` over
   * that product's successful commands.
   */
  lemma {:induction false} RunLevels(states: seq<RepoState>, handled: seq<(nat, StockCommand)>,
                                     outcomes: seq<Outcome<StockSvcError>>, env: nat -> HandlerEnv, p: string, n: nat)
    requires Trace(states, handled, outcomes, env)
    requires CacheAside.Coherent(StockRepository.Scheme, states[0].rows, states[0].cache)
    requires AllCacheWritesOk(handled, env)
    requires n <= |handled|
    ensures CacheAside.Coherent(StockRepository.Scheme, states[n].rows, states[n].cache)
    ensures StockRepository.Level(states[n].rows, p) ==
            LevelAfter(StockRepository.Level(states[0].rows, p), handled[..n], outcomes[..n], p)
    decreases n
  {
    if n == 0 {
      assert handled[..0] == [];
    } else {
      var k := n - 1;
      RunLevels(states, handled, outcomes, env, p, k);
      var cmd, e := handled[k].1, env(handled[k].0);
      TraceStep(states, handled, outcomes, env, k);
      HandledKeepsCoherent(states[k], cmd, e, outcomes[k], states[n]);
      HandledLevels(states[k], cmd, e, outcomes[k], states[n], p);
      assert handled[..n][..k] == handled[..k] && outcomes[..n][..k] == outcomes[..k];
      assert handled[..n][k] == handled[k] && outcomes[..n][k] == outcomes[k];
    }
  }

  /** The whole of a run: RunLevels at its end, for every product at once. */
  lemma RunEndLevels(states: seq<RepoState>, handled: seq<(nat, StockCommand)>,
                     outcomes: seq<Outcome<StockSvcError>>, env: nat -> HandlerEnv)
    requires Trace(states, handled, outcomes, env)
    requires CacheAside.Coherent(StockRepository.Scheme, states[0].rows, states[0].cache)
    requires AllCacheWritesOk(handled, env)
    ensures CacheAside.Coherent(StockRepository.Scheme, states[|handled|].rows, states[|handled|].cache)
    ensures forall p :: StockRepository.Level(states[|handled|].rows, p) ==
                        LevelAfter(StockRepository.Level(states[0].rows, p), handled, outcomes, p)
  {
    assert handled[..|handled|] == handled && outcomes[..|handled|] == outcomes;
    forall p ensures StockRepository.Level(states[|handled|].rows, p) ==
                     LevelAfter(StockRepository.Level(states[0].rows, p), handled, outcomes, p) {
      RunLevels(states, handled, outcomes, env, p, |handled|);
    }
    RunLevels(states, handled, outcomes, env, "", |handled|);
  }

  /** In a run, every UpdateStock command's outcome is the one its environment supplies. */
  lemma TraceUpdateOutcomes(states: seq<RepoState>, handled: seq<(nat, StockCommand)>,
                            outcomes: seq<Outcome<StockSvcError>>, env: nat -> HandlerEnv)
    requires Trace(states, handled, outcomes, env)
    ensures forall j :: 0 <= j < |handled| && handled[j].1.UpdateStock? ==> outcomes[j] == env(handled[j].0).updateOutcome
  {
    forall j | 0 <= j < |handled| && handled[j].1.UpdateStock?
      ensures outcomes[j] == env(handled[j].0).updateOutcome
    {
      TraceStep(states, handled, outcomes, env, j);
    }
  }

  /** Calls the stock service method the command names, with its product and quantity. */
  method Apply(svc: StockService, cmd: StockCommand, env: HandlerEnv) returns (err: Outcome<StockSvcError>)
    requires svc.repo.Valid()
    modifies svc.repo
    ensures svc.repo.Valid()
    ensures Handles(RepoState(old(svc.repo.rows), old(svc.repo.cache)), cmd, env, err, RepoState(svc.repo.rows, svc.repo.cache))
    ensures cmd.UpdateStock? ==> err == env.updateOutcome
    ensures err.Fail? && !cmd.UpdateStock? ==> svc.repo.rows == old(svc.repo.rows)
    ensures err.Pass? && old(svc.repo.Coherent()) && !cmd.UpdateStock? ==>
      svc.repo.StoredQuantity(cmd.productID) == Applied(old(svc.repo.StoredQuantity(cmd.productID)), cmd)
    ensures old(svc.repo.Coherent()) && CacheWritesOk(cmd, env) ==> svc.repo.Coherent()
    ensures (cmd.CreateStock? || cmd.DecreaseStock?) && old(NonNegative(svc.repo.rows)) ==> NonNegative(svc.repo.rows)
  {
    ghost var before := RepoState(svc.repo.rows, svc.repo.cache);
    ghost var coherent := svc.repo.Coherent();
    match cmd {
    case CreateStock(productID, quantity) =>
      err := svc.Save(productID, quantity, env.now, env.fPut);
      if err.Pass? && NonNegative(old(svc.repo.rows)) {
        ClampedIsNonNegativeAndIdempotent(quantity);
      }
    case UpdateStock(productID, quantity) =>
      err := svc.Update(productID, quantity, env.updateOutcome);
    case IncreaseStock(productID, quantity) =>
      ghost var loaded;
      err, loaded := svc.IncreaseQuantity(quantity, productID, env.now, env.fGet, env.fPut);
    case DecreaseStock(productID, quantity) =>
      ghost var loaded;
      err, loaded := svc.DecreaseQuantity(quantity, productID, env.now, env.fGet, env.fPut);
    }
    ghost var after := RepoState(svc.repo.rows, svc.repo.cache);
    assert Handles(before, cmd, env, err, after);
    if coherent && !cmd.UpdateStock? {
      HandledLevels(before, cmd, env, err, after, cmd.productID);
    }
  }

  /** Apply, recorded as one more step of a run whose last state is the repository's. */
  method ApplyStep(svc: StockService, cmd: StockCommand, i: nat, env: nat -> HandlerEnv, ghost states: seq<RepoState>,
                   ghost handled: seq<(nat, StockCommand)>, ghost outcomes: seq<Outcome<StockSvcError>>)
    returns (err: Outcome<StockSvcError>, ghost states': seq<RepoState>)
    requires svc.repo.Valid()
    requires Trace(states, handled, outcomes, env)
    requires states[|handled|] == RepoState(svc.repo.rows, svc.repo.cache)
    modifies svc.repo
    ensures svc.repo.Valid()
    ensures states' == states + [RepoState(svc.repo.rows, svc.repo.cache)]
    ensures Trace(states', handled + [(i, cmd)], outcomes + [err], env)
    ensures (cmd.CreateStock? || cmd.DecreaseStock?) && old(NonNegative(svc.repo.rows)) ==> NonNegative(svc.repo.rows)
  {
    ghost var pre := states[|handled|];
    err := Apply(svc, cmd, env(i));
    ghost var post := RepoState(svc.repo.rows, svc.repo.cache);
    assert Handles(pre, cmd, env(i), err, post);
    TraceAppend(states, handled, outcomes, env, (i, cmd), err, post);
    states' := states + [post];
  }
}
