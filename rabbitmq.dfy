// internal/message_broker/rabbitmq.go: the producer, and the consumers that dispatch on the
// routing key and acknowledge a delivery only when its handler succeeded (the loops of
// Broker.HandleStock and Broker.SendMails with manual ack).
module RabbitMQ {
  import opened Wrappers
  import opened Broker
  import opened StockHandler
  import opened StockSvc

  /** The transport's error, returned to the caller unchanged. */
  datatype PublishError = PublishError

  /** The channel's publishing side; `sent` is every message the broker accepted, in order. */
  class Producer {
    var sent: seq<Publication>

    constructor ()
      ensures sent == []
    {
      sent := [];
    }

    /**
     * Publishes `body` as one persistent JSON message to the configured exchange and routing
     * key; `ok` says whether the transport accepted it.
     */
    method Publishing(conf: MQConfig, body: Body, ok: bool) returns (err: Outcome<PublishError>)
      modifies this
      ensures err == if ok then Pass else Fail(PublishError)
      ensures sent == old(sent) + (if ok then [Publication(conf.exchangeName, conf.routingKey, "application/json", 2, body)] else [])
    {
      if !ok {
        return Fail(PublishError);
      }
      sent := sent + [Publication(conf.exchangeName, conf.routingKey, "application/json", 2, body)];
      err := Pass;
    }
  }

  class ConsumerService {
    const stockSvc: StockService

    constructor (stockSvc: StockService)
      ensures this.stockSvc == stockSvc
    {
      this.stockSvc := stockSvc;
    }

    /**
     * Handles the stock queue: each delivery that decodes as a stock and carries one of the
     * four stock routing keys is handed to the stock service (`env(i)` is the environment
     * of delivery i) and acknowledged only if the service succeeded. Other deliveries are
     * skipped without an acknowledgement.
     */
    method StockConsuming(deliveries: seq<Delivery>, env: nat -> HandlerEnv)
      returns (handled: seq<(nat, StockCommand)>, outcomes: seq<Outcome<StockSvcError>>, acked: set<nat>,
               ghost states: seq<RepoState>)
      requires stockSvc.repo.Valid()
      modifies stockSvc.repo
      ensures stockSvc.repo.Valid()
      ensures handled == Dispatched(deliveries, RouteStockByKey)
      ensures |outcomes| == |handled|
      ensures Trace(states, handled, outcomes, env)
      ensures states[0] == RepoState(old(stockSvc.repo.rows), old(stockSvc.repo.cache))
      ensures states[|handled|] == RepoState(stockSvc.repo.rows, stockSvc.repo.cache)
      ensures acked == AckedOnSuccess(handled, outcomes)
      ensures forall j :: 0 <= j < |handled| && handled[j].1.UpdateStock? ==> outcomes[j] == env(handled[j].0).updateOutcome
      ensures forall i :: i in acked ==> i < |deliveries| && RouteStockByKey(deliveries[i]).Some?
      ensures old(NonNegative(stockSvc.repo.rows))
              && OnlyCreateOrDecrease(handled)
              ==> NonNegative(stockSvc.repo.rows)
      ensures old(stockSvc.repo.Coherent()) && AllCacheWritesOk(handled, env) ==>
        && stockSvc.repo.Coherent()
        && forall p :: stockSvc.repo.StoredQuantity(p) == LevelAfter(old(stockSvc.repo.StoredQuantity(p)), handled, outcomes, p)
    {
      handled, outcomes, acked, states := HandleStock(stockSvc, deliveries, env, RouteStockByKey, true);
    }

    /**
     * Handles the user queue: "user.create" sends the welcome mail and "user.update" the
     * update notice to the user's address; a delivery is acknowledged only if its mail was
     * sent (`mailOk(i)`). Undecodable bodies and other keys are skipped without an
     * acknowledgement.
     */
    method EmailConsuming(deliveries: seq<Delivery>, mailOk: nat -> bool)
      returns (mails: seq<(nat, MailCommand)>, results: seq<Outcome<MailError>>, acked: set<nat>)
      ensures mails == Dispatched(deliveries, RouteMailByKey)
      ensures |results| == |mails|
      ensures forall j :: 0 <= j < |mails| ==> results[j] == MailResult(mailOk, mails[j].0)
      ensures acked == AckedOnSuccess(mails, results)
      ensures forall i: nat :: i in acked <==> i < |deliveries| && RouteMailByKey(deliveries[i]).Some? && mailOk(i)
    {
      mails, results, acked := SendMails(deliveries, RouteMailByKey, mailOk, true);
    }
  }
}
