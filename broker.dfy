// internal/message_broker/message_broker.go and the message shapes the services publish and
// the consumers decode. A body is described by what it decodes to; JSON text is not modelled.
module Broker {
  import opened Wrappers
  import opened UserModel
  import opened StockHandler
  import opened StockSvc
  import CacheAside
  import StockRepository

  const UserExchangeName: string := "user_exchange"
  const UserExchangeType: string := "topic"
  const UserQueueName: string := "user_queue"

  const StockExchangeName: string := "stock_exchange"
  const StockExchangeType: string := "topic"
  const StockQueueName: string := "stock_queue"

  /** Where a publication goes. */
  datatype MQConfig = MQConfig(exchangeName: string, exchangeType: string, queueName: string, routingKey: string)

  function StockConfig(routingKey: string): MQConfig
  {
    MQConfig(StockExchangeName, StockExchangeType, StockQueueName, routingKey)
  }

  function UserConfig(routingKey: string): MQConfig
  {
    MQConfig(UserExchangeName, UserExchangeType, UserQueueName, routingKey)
  }

  /** A JSON object as the consumers decode it: a stock (product and quantity), a user, or neither. */
  datatype Payload = StockPayload(productID: string, quantity: int) | UserPayload(user: User) | Opaque

  /** A message body: a bare object, an envelope with a type and a payload, or text that is not JSON. */
  datatype Body = Raw(payload: Payload) | Envelope(kind: string, payload: Payload) | Malformed

  /** A message handed to the broker: exchange, routing key, content type, delivery mode and body. */
  datatype Publication = Publication(exchange: string, routingKey: string, contentType: string, deliveryMode: nat, body: Body)

  /** A message taken from a queue. */
  datatype Delivery = Delivery(routingKey: string, body: Body)

  /** The delivery a queue bound to the publication's exchange hands to its consumer. */
  function Delivered(p: Publication): Delivery
  {
    Delivery(p.routingKey, p.body)
  }

  /** The persistent JSON message announcing a product's stock on the stock exchange under a routing key. */
  function StockEvent(routingKey: string, productID: string, quantity: int): Publication
  {
    Publication(StockExchangeName, routingKey, "application/json", 2, Raw(StockPayload(productID, quantity)))
  }

  /** The persistent JSON message carrying a user on the user exchange under a routing key. */
  function UserEvent(routingKey: string, u: User): Publication
  {
    Publication(UserExchangeName, routingKey, "application/json", 2, Raw(UserPayload(u)))
  }

  /** The mail a user message asks for: a welcome mail, or an update notice formatted from the email and update time. */
  datatype MailCommand =
    | Welcome(to: seq<string>)
    | Notice(subject: string, to: seq<string>, email: string, updatedAt: int)

  /** The command a stock action names, for the routing-key and the envelope-type spellings. */
  function StockAction(action: string, productID: string, quantity: int): Option<StockCommand>
  {
    if action == "create" then Some(CreateStock(productID, quantity))
    else if action == "update" then Some(UpdateStock(productID, quantity))
    else if action == "increase" then Some(IncreaseStock(productID, quantity))
    else if action == "decrease" then Some(DecreaseStock(productID, quantity))
    else None
  }

  /** internal/message_broker/rabbitmq.go: a stock body, dispatched on the routing key "stock.<action>". */
  function RouteStockByKey(d: Delivery): (r: Option<StockCommand>)
    ensures r.Some? ==> d.body.Raw? && d.body.payload.StockPayload?
    ensures r.Some? ==> r.value.productID == d.body.payload.productID && r.value.quantity == d.body.payload.quantity
    ensures d.routingKey == "stock.decrease" && d.body.Raw? && d.body.payload.StockPayload? ==>
      r == Some(DecreaseStock(d.body.payload.productID, d.body.payload.quantity))
    ensures d.routingKey == "stock.increase" && d.body.Raw? && d.body.payload.StockPayload? ==>
      r == Some(IncreaseStock(d.body.payload.productID, d.body.payload.quantity))
  {
    match d.body
    case Raw(StockPayload(productID, quantity)) =>
      if d.routingKey == "stock.create" then StockAction("create", productID, quantity)
      else if d.routingKey == "stock.update" then StockAction("update", productID, quantity)
      else if d.routingKey == "stock.increase" then StockAction("increase", productID, quantity)
      else if d.routingKey == "stock.decrease" then StockAction("decrease", productID, quantity)
      else None
    case _ => None
  }

  /** internal/message_broker/consume.go and stock_consume.go: an envelope around a stock, dispatched on the type "<action>_stock". */
  function RouteStockByType(d: Delivery): (r: Option<StockCommand>)
    ensures r.Some? ==> d.body.Envelope? && d.body.payload.StockPayload?
    ensures r.Some? ==> r.value.productID == d.body.payload.productID && r.value.quantity == d.body.payload.quantity
  {
    match d.body
    case Envelope(kind, StockPayload(productID, quantity)) =>
      if kind == "create_stock" then StockAction("create", productID, quantity)
      else if kind == "update_stock" then StockAction("update", productID, quantity)
      else if kind == "increase_stock" then StockAction("increase", productID, quantity)
      else if kind == "decrease_stock" then StockAction("decrease", productID, quantity)
      else None
    case _ => None
  }

  /** The mail for a user message with a given action. */
  function MailAction(action: string, u: User): Option<MailCommand>
  {
    if action == "create" then Some(Welcome([u.email]))
    else if action == "update" then Some(Notice("User Update", [u.email], u.email, u.updatedAt))
    else None
  }

  /** internal/message_broker/rabbitmq.go: a user body, dispatched on the routing key "user.<action>". */
  function RouteMailByKey(d: Delivery): (r: Option<MailCommand>)
    ensures r.Some? ==> d.body.Raw? && d.body.payload.UserPayload? && r.value.to == [d.body.payload.user.email]
  {
    match d.body
    case Raw(UserPayload(u)) =>
      if d.routingKey == "user.create" then MailAction("create", u)
      else if d.routingKey == "user.update" then MailAction("update", u)
      else None
    case _ => None
  }

  /** internal/message_broker/consume.go, email_consume.go and consumer.go: an envelope around a user, dispatched on "<action>_user". */
  function RouteMailByType(d: Delivery): (r: Option<MailCommand>)
    ensures r.Some? ==> d.body.Envelope? && d.body.payload.UserPayload? && r.value.to == [d.body.payload.user.email]
  {
    match d.body
    case Envelope(kind, UserPayload(u)) =>
      if kind == "create_user" then MailAction("create", u)
      else if kind == "update_user" then MailAction("update", u)
      else None
    case _ => None
  }

  /**
   * A stock event, consumed from a queue and dispatched by routing key, becomes the command
   * its key names, for its product and quantity.
   */
  lemma StockEventRoutes(routingKey: string, productID: string, quantity: int)
    ensures var cmd := RouteStockByKey(Delivered(StockEvent(routingKey, productID, quantity)));
      && (cmd.Some? <==> routingKey in {"stock.create", "stock.update", "stock.increase", "stock.decrease"})
      && (cmd.Some? ==> cmd.value.productID == productID && cmd.value.quantity == quantity)
      && (routingKey == "stock.create" ==> cmd == Some(CreateStock(productID, quantity)))
      && (routingKey == "stock.update" ==> cmd == Some(UpdateStock(productID, quantity)))
      && (routingKey == "stock.increase" ==> cmd == Some(IncreaseStock(productID, quantity)))
      && (routingKey == "stock.decrease" ==> cmd == Some(DecreaseStock(productID, quantity)))
  {
  }

  /**
   * A user event consumed from the user queue and dispatched by routing key asks for a
   * welcome mail ("user.create") or an update notice ("user.update") to the user's email.
   */
  lemma UserEventRoutes(routingKey: string, u: User)
    ensures
      var mail := RouteMailByKey(Delivered(UserEvent(routingKey, u)));
      && (mail.Some? <==> routingKey in {"user.create", "user.update"})
      && (routingKey == "user.create" ==> mail == Some(Welcome([u.email])))
      && (routingKey == "user.update" ==> mail == Some(Notice("User Update", [u.email], u.email, u.updatedAt)))
  {
  }

  /** A bare stock under "stock.<a>" asks for the action `a`. */
  lemma KeyedStockIsAction(action: string, productID: string, quantity: int)
    ensures RouteStockByKey(Delivery("stock." + action, Raw(StockPayload(productID, quantity))))
         == StockAction(action, productID, quantity)
  {
    var key := "stock." + action;
    assert key == "stock.create" <==> action == "create" by { PrefixedEqual("stock.", action, "create"); }
    assert key == "stock.update" <==> action == "update" by { PrefixedEqual("stock.", action, "update"); }
    assert key == "stock.increase" <==> action == "increase" by { PrefixedEqual("stock.", action, "increase"); }
    assert key == "stock.decrease" <==> action == "decrease" by { PrefixedEqual("stock.", action, "decrease"); }
  }

  /** A stock envelope of type "<a>_stock" asks for the action `a`. */
  lemma TypedStockIsAction(action: string, productID: string, quantity: int, kind: string)
    ensures RouteStockByType(Delivery(kind, Envelope(action + "_stock", StockPayload(productID, quantity))))
         == StockAction(action, productID, quantity)
  {
    var typ := action + "_stock";
    assert typ == "create_stock" <==> action == "create" by { SuffixedEqual(action, "create", "_stock"); }
    assert typ == "update_stock" <==> action == "update" by { SuffixedEqual(action, "update", "_stock"); }
    assert typ == "increase_stock" <==> action == "increase" by { SuffixedEqual(action, "increase", "_stock"); }
    assert typ == "decrease_stock" <==> action == "decrease" by { SuffixedEqual(action, "decrease", "_stock"); }
  }

  /** The two stock dispatch schemes agree: "stock.<a>" on a bare stock means what "<a>_stock" means on an envelope. */
  lemma StockRoutingSchemesAgree(action: string, productID: string, quantity: int, kind: string)
    ensures RouteStockByKey(Delivery("stock." + action, Raw(StockPayload(productID, quantity))))
         == RouteStockByType(Delivery(kind, Envelope(action + "_stock", StockPayload(productID, quantity))))
    ensures RouteStockByKey(Delivery("stock." + action, Raw(StockPayload(productID, quantity)))).Some?
         <==> action in {"create", "update", "increase", "decrease"}
  {
    KeyedStockIsAction(action, productID, quantity);
    TypedStockIsAction(action, productID, quantity, kind);
  }

  /** The two mail dispatch schemes agree: "user.<a>" on a bare user means what "<a>_user" means on an envelope. */
  lemma MailRoutingSchemesAgree(action: string, u: User, kind: string)
    ensures RouteMailByKey(Delivery("user." + action, Raw(UserPayload(u))))
         == RouteMailByType(Delivery(kind, Envelope(action + "_user", UserPayload(u))))
    ensures RouteMailByKey(Delivery("user." + action, Raw(UserPayload(u)))).Some? <==> action in {"create", "update"}
  {
    var key, typ := "user." + action, action + "_user";
    assert key == "user.create" <==> action == "create" by { PrefixedEqual("user.", action, "create"); }
    assert key == "user.update" <==> action == "update" by { PrefixedEqual("user.", action, "update"); }
    assert typ == "create_user" <==> action == "create" by { SuffixedEqual(action, "create", "_user"); }
    assert typ == "update_user" <==> action == "update" by { SuffixedEqual(action, "update", "_user"); }
  }

  /**
   * The (delivery index, command) pairs a consumer loop acts on, in delivery order: every
   * delivery its routing maps to a command; the others are skipped.
   */
  function Dispatched<C>(ds: seq<Delivery>, route: Delivery -> Option<C>): seq<(nat, C)>
    decreases |ds|
  {
    if |ds| == 0 then []
    else
      var prefix := Dispatched(ds[..|ds| - 1], route);
      match route(ds[|ds| - 1])
      case Some(c) => prefix + [(|ds| - 1, c)]
      case None => prefix
  }

  /** Every pair acted on is a delivery index whose routing gives that command, in increasing delivery order. */
  lemma {:induction false} DispatchedIsSound<C>(ds: seq<Delivery>, route: Delivery -> Option<C>)
    ensures forall j :: 0 <= j < |Dispatched(ds, route)| ==>
      Dispatched(ds, route)[j].0 < |ds| && route(ds[Dispatched(ds, route)[j].0]) == Some(Dispatched(ds, route)[j].1)
    ensures forall j, k :: 0 <= j < k < |Dispatched(ds, route)| ==> Dispatched(ds, route)[j].0 < Dispatched(ds, route)[k].0
    decreases |ds|
  {
    if |ds| > 0 {
      var prefix := ds[..|ds| - 1];
      DispatchedIsSound(prefix, route);
      assert forall i :: 0 <= i < |prefix| ==> prefix[i] == ds[i];
      var r, p := Dispatched(ds, route), Dispatched(prefix, route);
      if route(ds[|ds| - 1]).Some? {
        assert r == p + [(|ds| - 1, route(ds[|ds| - 1]).value)];
        assert forall j :: 0 <= j < |p| ==> r[j] == p[j];
      } else {
        assert r == p;
        assert forall j :: 0 <= j < |p| ==> p[j].0 < |prefix| && prefix[p[j].0] == ds[p[j].0];
      }
    }
  }

  /** Every delivery that routes to a command is acted on. */
  lemma {:induction false} DispatchedIsComplete<C>(ds: seq<Delivery>, route: Delivery -> Option<C>, i: nat)
    requires i < |ds| && route(ds[i]).Some?
    ensures exists j :: 0 <= j < |Dispatched(ds, route)| && Dispatched(ds, route)[j] == (i, route(ds[i]).value)
    decreases |ds|
  {
    var r := Dispatched(ds, route);
    if i == |ds| - 1 {
      assert r[|r| - 1] == (i, route(ds[i]).value);
    } else {
      var prefix := ds[..|ds| - 1];
      assert prefix[i] == ds[i];
      DispatchedIsComplete(prefix, route, i);
      var j :| 0 <= j < |Dispatched(prefix, route)| && Dispatched(prefix, route)[j] == (i, route(ds[i]).value);
      assert r[j] == Dispatched(prefix, route)[j];
    }
  }

  /** The delivery indices below `n`: what auto-ack acknowledges of the first `n` deliveries. */
  function AllIndices(n: nat): (r: set<nat>)
    ensures forall i: nat :: i in r <==> i < n
  {
    if n == 0 then {} else AllIndices(n - 1) + {n - 1}
  }

  /** The mail service's failure. */
  datatype MailError = MailError

  /** The result of the mail call for delivery `i`, as the mail server decides it. */
  function MailResult(mailOk: nat -> bool, i: nat): Outcome<MailError>
  {
    if mailOk(i) then Pass else Fail(MailError)
  }

  /** The delivery indices acknowledged when a delivery is acked only after its handler succeeded. */
  function AckedOnSuccess<C, E>(handled: seq<(nat, C)>, outcomes: seq<Outcome<E>>): set<nat>
    requires |outcomes| == |handled|
    decreases |handled|
  {
    if |handled| == 0 then {}
    else
      var n := |handled| - 1;
      AckedOnSuccess(handled[..n], outcomes[..n]) + (if outcomes[n].Pass? then {handled[n].0} else {})
  }

  /** A delivery is acknowledged exactly when one of its handler runs succeeded. */
  lemma {:induction false} AckedOnSuccessMember<C, E>(handled: seq<(nat, C)>, outcomes: seq<Outcome<E>>, i: nat)
    requires |outcomes| == |handled|
    ensures i in AckedOnSuccess(handled, outcomes)
            <==> exists j :: 0 <= j < |handled| && handled[j].0 == i && outcomes[j].Pass?
    decreases |handled|
  {
    if |handled| > 0 {
      var n := |handled| - 1;
      AckedOnSuccessMember(handled[..n], outcomes[..n], i);
      if i in AckedOnSuccess(handled[..n], outcomes[..n]) {
        var j :| 0 <= j < n && handled[..n][j].0 == i && outcomes[..n][j].Pass?;
        assert handled[j].0 == i && outcomes[j].Pass?;
      } else {
        assert forall j :: 0 <= j < n ==> handled[..n][j] == handled[j] && outcomes[..n][j] == outcomes[j];
      }
    }
  }

  /** One more step of a consumer loop: delivery `i` is appended when it routes to a command. */
  lemma DispatchedStep<C>(ds: seq<Delivery>, route: Delivery -> Option<C>, i: nat)
    requires i < |ds|
    ensures route(ds[i]).Some? ==> Dispatched(ds[..i + 1], route) == Dispatched(ds[..i], route) + [(i, route(ds[i]).value)]
    ensures route(ds[i]).None? ==> Dispatched(ds[..i + 1], route) == Dispatched(ds[..i], route)
  {
    assert ds[..i + 1][..i] == ds[..i];
  }

  /** Handling one more delivery acks it exactly when its handler succeeded. */
  lemma AckedOnSuccessAppend<C, E>(handled: seq<(nat, C)>, outcomes: seq<Outcome<E>>, h: (nat, C), o: Outcome<E>)
    requires |outcomes| == |handled|
    ensures AckedOnSuccess(handled + [h], outcomes + [o])
         == AckedOnSuccess(handled, outcomes) + (if o.Pass? then {h.0} else {})
  {
    assert (handled + [h])[..|handled|] == handled;
    assert (outcomes + [o])[..|outcomes|] == outcomes;
  }

  lemma PrefixedEqual(p: string, a: string, b: string)
    ensures p + a == p + b <==> a == b
  {
    if p + a == p + b {
      assert a == (p + a)[|p|..];
      assert b == (p + b)[|p|..];
    }
  }

  lemma SuffixedEqual(a: string, b: string, s: string)
    ensures a + s == b + s <==> a == b
  {
    if a + s == b + s {
      assert a == (a + s)[..|a|];
      assert b == (b + s)[..|b|];
    }
  }

  /**
   * The loop of a stock consumer: each delivery that `route` maps to a command is handed
   * to the stock service (`env(i)` is the environment of delivery i). With `ackOnSuccess`
   * (manual ack) a delivery is acknowledged only when the service succeeded; otherwise
   * (auto-ack) every delivery is acknowledged on receipt.
   */
  method HandleStock(svc: StockService, deliveries: seq<Delivery>, env: nat -> HandlerEnv,
                     route: Delivery -> Option<StockCommand>, ackOnSuccess: bool)
    returns (handled: seq<(nat, StockCommand)>, outcomes: seq<Outcome<StockSvcError>>, acked: set<nat>,
             ghost states: seq<RepoState>)
    requires svc.repo.Valid()
    modifies svc.repo
    ensures svc.repo.Valid()
    ensures handled == Dispatched(deliveries, route)
    ensures |outcomes| == |handled|
    ensures Trace(states, handled, outcomes, env)
    ensures states[0] == RepoState(old(svc.repo.rows), old(svc.repo.cache))
    ensures states[|handled|] == RepoState(svc.repo.rows, svc.repo.cache)
    ensures acked == if ackOnSuccess then AckedOnSuccess(handled, outcomes) else AllIndices(|deliveries|)
    ensures ackOnSuccess ==> forall k :: k in acked ==> k < |deliveries| && route(deliveries[k]).Some?
    ensures forall j :: 0 <= j < |handled| && handled[j].1.UpdateStock? ==> outcomes[j] == env(handled[j].0).updateOutcome
    ensures old(NonNegative(svc.repo.rows)) && OnlyCreateOrDecrease(handled) ==> NonNegative(svc.repo.rows)
    ensures old(svc.repo.Coherent()) && AllCacheWritesOk(handled, env) ==>
      && svc.repo.Coherent()
      && forall p :: svc.repo.StoredQuantity(p) == LevelAfter(old(svc.repo.StoredQuantity(p)), handled, outcomes, p)
  {
    handled, outcomes, acked := [], [], {};
    states := [RepoState(svc.repo.rows, svc.repo.cache)];
    ghost var start, nonNegative := states[0], NonNegative(svc.repo.rows);
    var i := 0;
    while i < |deliveries|
      invariant StockProgress(svc, deliveries, env, route, ackOnSuccess, i, handled, outcomes, acked, states, start, nonNegative)
    {
      handled, outcomes, acked, states :=
        HandleDelivery(svc, deliveries, env, route, ackOnSuccess, i, handled, outcomes, acked, states, start, nonNegative);
      i := i + 1;
    }
    assert deliveries[..i] == deliveries;
    TraceUpdateOutcomes(states, handled, outcomes, env);
    if CacheAside.Coherent(StockRepository.Scheme, states[0].rows, states[0].cache) && AllCacheWritesOk(handled, env) {
      RunEndLevels(states, handled, outcomes, env);
    }
  }

  /**
   * Where a stock consumer stands after its first `i` deliveries: the commands they
   * route to, their outcomes and the run of repository states they produced from `start`,
   * the deliveries acknowledged so far, and non-negative levels kept when the start had
   * them and every command only creates or decreases.
   */
  ghost predicate StockProgress(svc: StockService, deliveries: seq<Delivery>, env: nat -> HandlerEnv,
                                route: Delivery -> Option<StockCommand>, ackOnSuccess: bool, i: nat,
                                handled: seq<(nat, StockCommand)>, outcomes: seq<Outcome<StockSvcError>>, acked: set<nat>,
                                states: seq<RepoState>, start: RepoState, nonNegative: bool)
    reads svc.repo
  {
    && i <= |deliveries|
    && svc.repo.Valid()
    && handled == Dispatched(deliveries[..i], route)
    && |outcomes| == |handled|
    && Trace(states, handled, outcomes, env)
    && states[0] == start
    && states[|handled|] == RepoState(svc.repo.rows, svc.repo.cache)
    && (ackOnSuccess ==> acked == AckedOnSuccess(handled, outcomes))
    && (!ackOnSuccess ==> acked == AllIndices(i))
    && (ackOnSuccess ==> forall k :: k in acked ==> k < i && route(deliveries[k]).Some?)
    && (nonNegative && OnlyCreateOrDecrease(handled) ==> NonNegative(svc.repo.rows))
  }

  /** One turn of a stock consumer's loop: delivery `i` is routed, handled when it carries a command, and acknowledged. */
  method HandleDelivery(svc: StockService, deliveries: seq<Delivery>, env: nat -> HandlerEnv,
                        route: Delivery -> Option<StockCommand>, ackOnSuccess: bool, i: nat,
                        handled: seq<(nat, StockCommand)>, outcomes: seq<Outcome<StockSvcError>>, acked: set<nat>,
                        ghost states: seq<RepoState>, ghost start: RepoState, ghost nonNegative: bool)
    returns (handled': seq<(nat, StockCommand)>, outcomes': seq<Outcome<StockSvcError>>, acked': set<nat>,
             ghost states': seq<RepoState>)
    requires i < |deliveries|
    requires StockProgress(svc, deliveries, env, route, ackOnSuccess, i, handled, outcomes, acked, states, start, nonNegative)
    modifies svc.repo
    ensures StockProgress(svc, deliveries, env, route, ackOnSuccess, i + 1, handled', outcomes', acked', states', start, nonNegative)
  {
    handled', outcomes', acked', states' := handled, outcomes, acked, states;
    DispatchedStep(deliveries, route, i);
    if !ackOnSuccess {
      assert AllIndices(i + 1) == AllIndices(i) + {i};
      acked' := acked' + {i};
    }
    var command := route(deliveries[i]);
    if command.Some? {
      var err;
      err, states' := ApplyStep(svc, command.value, i, env, states, handled, outcomes);
      OnlyCreateOrDecreaseAppend(handled, (i, command.value));
      AckedOnSuccessAppend(handled, outcomes, (i, command.value), err);
      handled', outcomes' := handled + [(i, command.value)], outcomes + [err];
      if ackOnSuccess && err.Pass? {
        acked' := acked' + {i};
      }
    }
  }

  /**
   * The loop of a mail consumer: each delivery that `route` maps to a mail has it sent, the
   * mail server answering `mailOk(i)`. With `ackOnSuccess` a delivery is acknowledged only
   * when its mail was sent; otherwise every delivery is acknowledged on receipt.
   */
  method SendMails(deliveries: seq<Delivery>, route: Delivery -> Option<MailCommand>, mailOk: nat -> bool, ackOnSuccess: bool)
    returns (mails: seq<(nat, MailCommand)>, results: seq<Outcome<MailError>>, acked: set<nat>)
    ensures mails == Dispatched(deliveries, route)
    ensures |results| == |mails|
    ensures forall j :: 0 <= j < |mails| ==> results[j] == MailResult(mailOk, mails[j].0)
    ensures acked == if ackOnSuccess then AckedOnSuccess(mails, results) else AllIndices(|deliveries|)
    ensures ackOnSuccess ==>
      forall k: nat :: k in acked <==> k < |deliveries| && route(deliveries[k]).Some? && mailOk(k)
  {
    mails, results, acked := [], [], {};
    var i := 0;
    while i < |deliveries|
      invariant 0 <= i <= |deliveries|
      invariant mails == Dispatched(deliveries[..i], route)
      invariant |results| == |mails|
      invariant forall j :: 0 <= j < |mails| ==> results[j] == MailResult(mailOk, mails[j].0)
      invariant ackOnSuccess ==> acked == AckedOnSuccess(mails, results)
      invariant !ackOnSuccess ==> acked == AllIndices(i)
      invariant ackOnSuccess ==> forall k: nat :: k in acked <==> k < i && route(deliveries[k]).Some? && mailOk(k)
    {
      DispatchedStep(deliveries, route, i);
      if !ackOnSuccess {
        assert AllIndices(i + 1) == AllIndices(i) + {i};
        acked := acked + {i};
      }
      var mail := route(deliveries[i]);
      ghost var before := acked;
      if mail.Some? {
        var sent := MailResult(mailOk, i);
        AckedOnSuccessAppend(mails, results, (i, mail.value), sent);
        mails, results := mails + [(i, mail.value)], results + [sent];
        if ackOnSuccess && sent.Pass? {
          acked := acked + {i};
        }
      }
      if ackOnSuccess {
        assert acked == before + (if mail.Some? && mailOk(i) then {i} else {});
        forall k: nat
          ensures k in acked <==> k < i + 1 && route(deliveries[k]).Some? && mailOk(k)
        {
          if k < i {
            assert k in acked <==> k in before;
          }
        }
      }
      i := i + 1;
    }
    assert deliveries[..i] == deliveries;
  }
}
