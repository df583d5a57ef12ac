// internal/message_broker/consume.go: consumers that read envelopes, dispatch on the
// envelope's type and acknowledge every delivery on receipt (auto-ack), whatever the
// handler does. The single-queue consumers of stock_consume.go (stocks) and of
// email_consume.go and consumer.go (mails) run the same loops over the same envelopes,
// so StockConsuming and EmailConsuming stand for them as well. Both run the loops of
// Broker.HandleStock and Broker.SendMails with auto-ack.
module EnvelopeConsume {
  import opened Wrappers
  import opened Broker
  import opened StockHandler
  import opened StockSvc

  class ConsumerService {
    const stockSvc: StockService

    constructor (stockSvc: StockService)
      ensures this.stockSvc == stockSvc
    {
      this.stockSvc := stockSvc;
    }

    /**
     * Handles the stock queue: each envelope of type create_stock, update_stock,
     * increase_stock or decrease_stock around a stock is handed to the stock service
     * (`env(i)` is the environment of delivery i). Every delivery is acknowledged; handler
     * errors only end that delivery's handling.
     */
    method StockConsuming(deliveries: seq<Delivery>, env: nat -> HandlerEnv)
      returns (handled: seq<(nat, StockCommand)>, outcomes: seq<Outcome<StockSvcError>>, acked: set<nat>,
               ghost states: seq<RepoState>)
      requires stockSvc.repo.Valid()
      modifies stockSvc.repo
      ensures stockSvc.repo.Valid()
      ensures handled == Dispatched(deliveries, RouteStockByType)
      ensures |outcomes| == |handled|
      ensures Trace(states, handled, outcomes, env)
      ensures states[0] == RepoState(old(stockSvc.repo.rows), old(stockSvc.repo.cache))
      ensures states[|handled|] == RepoState(stockSvc.repo.rows, stockSvc.repo.cache)
      ensures acked == AllIndices(|deliveries|)
      ensures forall j :: 0 <= j < |handled| && handled[j].1.UpdateStock? ==> outcomes[j] == env(handled[j].0).updateOutcome
      ensures old(NonNegative(stockSvc.repo.rows))
              && OnlyCreateOrDecrease(handled)
              ==> NonNegative(stockSvc.repo.rows)
      ensures old(stockSvc.repo.Coherent()) && AllCacheWritesOk(handled, env) ==>
        && stockSvc.repo.Coherent()
        && forall p :: stockSvc.repo.StoredQuantity(p) == LevelAfter(old(stockSvc.repo.StoredQuantity(p)), handled, outcomes, p)
    {
      handled, outcomes, acked, states := HandleStock(stockSvc, deliveries, env, RouteStockByType, false);
    }

    /**
     * Handles the user queue: an envelope of type create_user around a user sends the
     * welcome mail, update_user the update notice, to the user's address. Every delivery is
     * acknowledged; a failed mail is only logged.
     */
    method EmailConsuming(deliveries: seq<Delivery>, mailOk: nat -> bool)
      returns (mails: seq<(nat, MailCommand)>, results: seq<Outcome<MailError>>, acked: set<nat>)
      ensures mails == Dispatched(deliveries, RouteMailByType)
      ensures |results| == |mails|
      ensures forall j :: 0 <= j < |mails| ==> results[j] == MailResult(mailOk, mails[j].0)
      ensures acked == AllIndices(|deliveries|)
    {
      mails, results, acked := SendMails(deliveries, RouteMailByType, mailOk, false);
    }
  }
}
