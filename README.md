# go-db core in Dafny

This is a model of the back end of an online shop written in Go (module `go-rebuild`). Products, orders, users and stock levels are kept in a database. A cache-aside Redis layer sits in front of the database, and services publish stock and user events to RabbitMQ. Consumers turn those events into stock changes and e-mails.

The model covers these parts:

- **Stock.** The stock record and its quantity rules: a clamping `SetQuantity`, a guarded `DecreaseQuantity` and an unguarded `IncreaseQuantity`. The stock service does a read-modify-write on the record.
- **Cache keys.** Key derivation in both revisions: `internal/cache` and the earlier `redis/keyGen.go`.
- **Repositories.** The cache-aside repositories of both revisions, for products, orders, stock and users. The database is a sequence of keyed rows (`Store`). The cache is a map from key to cached value (`Cache`). Every store call and cache call can fail, chosen by a fault set (`Store.Faults`). The central invariant is *coherence*: every cached entry equals what the database holds (`CacheAside.Coherent`). Each repository states which keys each operation sets and which it deletes. It also states when coherence is kept and when a stale entry can appear.
- **Services.** The order, product and user services (and the earlier user service) are ordered sequences of guards, repository writes and publishes. The producer is a class whose `sent` field records every accepted publication.
- **Consumers.** Each consumer is a loop over a sequence of deliveries. The loop records the (delivery, command) pairs it handles and the set of deliveries it acknowledges. The routing-key consumers acknowledge a delivery only when its handler succeeded. The envelope consumers acknowledge every delivery. All of them share two loops, `Broker.HandleStock` for stock messages and `Broker.SendMails` for mail, which take the routing function and the acknowledgement mode as parameters.
- **Order saga.** Placing an order publishes `stock.decrease`; cancelling it publishes `stock.increase`. Consumed and applied in turn, the two restore the stock level exactly when the decrease succeeded (`OrderSvc.SaveThenDeleteRestoresStock`).
- **Validators.** `Product.Verify` and `User.Verify`, including an exact model of the e-mail regular expression.

Inputs the code takes from its surroundings are parameters of the model:

- clocks and generated ids (`now`, `id`);
- store and cache faults (`Store.Faults`);
- the broker's acceptance of a publish (`publishOk`);
- mail delivery (`mailOk`);
- password hashing (`hash`);
- the helpers whose source is not part of this model (`ToOrder`, `ToProduct`, `UpdateNotNilField`, `SetDefaultNotNilField`, `ToProductRes`, `ToOrderResp`): these become function-typed parameters (`toOrder`, `toProduct`, `updateNotNil`, `setDefault`, `toRes`, `toResp`).

Where the source revisions disagree, the model follows the code that the services actually call:

- `Stock` has no `ID` field (internal/model/stock.go:15-21), yet the stock service writes back under `currentStock.ID`. The model keys stock records by product id, and the write uses the record's own key.
- `Order` has no `Quantity` field (internal/model/order.go:5-12), yet the order service reads `order.Quantity`. The model gives `Order` a `quantity`.
- The stock service's `Update` is declared by the service interface (internal/module/module.go:19) and called by the consumers, but it has no implementation. `StockSvc.StockService.Update` returns a given outcome and leaves its effect on the repository open.
- The order service's `Update` compares the fetched product's id with the stored ORDER's id rather than with its product id (internal/module/order/order_svc.go:101). The model does the same.
- The order service's `Update` never writes the request's fields: it only refreshes `UpdatedAt` of the stored order. The model does the same.

## Model

| member | source | states |
|---|---|---|
| StockModel.Stock.constructor | internal/module/stock/stock_svc.go:32-37 | a new record for the product with quantity 0 and both timestamps `now` |
| StockModel.Stock.SetQuantity | internal/model/stock.go:24-30 | stores max(q, 0), never negative; product id and timestamps unchanged |
| StockModel.Stock.GetQuantity | internal/model/stock.go:32-34 | returns the stored quantity |
| StockModel.Stock.DecreaseQuantity | internal/model/stock.go:36-42 | fails with ErrDebtStock exactly when quantity − q < 0, and the quantity is then unchanged; otherwise the quantity becomes quantity − q ≥ 0; a non-negative level stays non-negative for every q |
| StockModel.Stock.IncreaseQuantity | internal/model/stock.go:44-46 | quantity becomes quantity + q and cannot fail; nothing else changes |
| StockModel.ClampedIsNonNegativeAndIdempotent | internal/model/stock.go:24-30 | the clamped level is ≥ 0, clamping twice equals clamping once, and a level is kept exactly when it is ≥ 0 |
| StockModel.DecreaseKeepsNonNegative | internal/model/stock.go:36-42 | from a level ≥ 0 a successful decrease leaves a level ≥ 0, and a refused one asked for more than the level |
| StockModel.IncreaseThenDecreaseRestores | internal/model/stock.go:36-46 | from a level ≥ 0, increase by q then decrease by q succeeds and restores the level |
| StockModel.DecreaseThenIncreaseRestores | internal/model/stock.go:36-46 | a decrease succeeds iff q ≤ level, and then adding q back restores the level |
| StockModel.DecreasedAllNonNegative | internal/model/stock.go:36-42 | any sequence of decreases from a level ≥ 0 keeps it ≥ 0 |
| StockModel.DecreasedAllNeverRaises | internal/model/stock.go:36-42 | decreases by non-negative amounts never raise the level |
| StockSvc.ReplaceKeepsNonNegative | internal/module/stock/stock_svc.go:91-99 | writing back a record with a non-negative level keeps every stored level non-negative |
| StockSvc.StockService.Save | internal/module/stock/stock_svc.go:31-53 | inserts the product's record with quantity max(quantity, 0); a failed insert is ErrCreateStock with nothing stored; the stored level is then Some(max(quantity, 0)); keeps non-negative levels and coherence |
| StockSvc.StockService.WriteBack | internal/module/stock/stock_svc.go:96-101 | writes the changed record back under its product id: succeeds iff both repository calls succeed and the record exists, then the store holds the record in place of the old one; any failure is ErrUpdateStock with the store unchanged; after a success the product's stored level is the record's; keeps non-negative levels and coherence |
| StockSvc.StockService.IncreaseQuantity | internal/module/stock/stock_svc.go:55-76 | `loaded` is exactly the read-through's answer for the product id; no record is ErrStockNotFound and no write; the call succeeds iff a record was read, both write calls succeed and the record's key is stored, and then the loaded record with quantity + q and update time `now` replaces it; any other failure is ErrUpdateStock with nothing changed; its rows and cache are exactly `IncreaseEffect`: the read-through's cache, then the write-back's record-key drop, list-key drop and record-key set, each only when its cache call works; under coherence and working calls it succeeds iff the product has a stored level, which becomes old + q, and coherence survives when the list-key drop works and one of the record-key calls does |
| StockSvc.StockService.DecreaseQuantity | internal/module/stock/stock_svc.go:78-102 | as IncreaseQuantity with − q and `DecreaseEffect`, and success also needs q ≤ the loaded level: insufficient stock is ErrUpdateStock and nothing is written, the cache being the read-through's; under coherence and working calls it succeeds iff the product has a stored level of at least q; non-negative levels stay non-negative; coherence survives as for IncreaseQuantity |
| StockSvc.StockService.LoadAndIncrease | internal/module/stock/stock_svc.go:55-76 | the read, the raise by q, the `now` stamp and the write-back of IncreaseQuantity: `loaded` is the read-through's answer, and the outcome, rows and cache are exactly `IncreaseEffect` of the state it starts in |
| StockSvc.StockService.LoadAndDecrease | internal/module/stock/stock_svc.go:78-102 | the same for DecreaseQuantity: exactly `DecreaseEffect`, where a loaded level below q is ErrUpdateStock with nothing written |
| StockSvc.IncreaseEffectFacts | internal/module/stock/stock_svc.go:55-76 | what an increase leaves, in callers' terms: no record read iff ErrStockNotFound; every failure is ErrStockNotFound or ErrUpdateStock with the rows unchanged; success iff a record was read, both write calls work and its key is stored, and then that record raised by q and stamped `now` replaces it |
| StockSvc.IncreaseEffectCoherent | internal/module/stock/stock_svc.go:55-76 | an increase from a coherent cache over records keyed by product: the record read is the product's stored one; with working calls it succeeds iff the product has a stored level; a success raises that level by q; the cache stays coherent when the list-key drop and one record-key call work |
| StockSvc.IncreaseKeepsCoherent | internal/repository/stock/stock_repo.go:54-133 | the cache half of that: the read-through and then the write-back each keep a coherent cache coherent |
| StockSvc.DecreaseEffectFacts | internal/module/stock/stock_svc.go:78-102 | as IncreaseEffectFacts for a decrease: a read record whose level is below q is ErrUpdateStock and nothing is written; success also needs q ≤ the loaded level, and writes the record lowered by q |
| StockSvc.DecreaseEffectCoherent | internal/module/stock/stock_svc.go:78-102 | as IncreaseEffectCoherent for a decrease: with working calls it succeeds iff the product's stored level exists and is at least q, and a success lowers it by q |
| StockSvc.DecreaseKeepsCoherent | internal/repository/stock/stock_repo.go:54-133 | the cache half for a decrease: coherence survives the read-through and the write-back |
| StockSvc.DecreaseEffectNonNegative | internal/module/stock/stock_svc.go:78-102 | a decrease from non-negative levels leaves every stored level non-negative |
| StockSvc.WriteBackKeepsCoherent | internal/repository/stock/stock_repo.go:54-89 | a write-back from a coherent cache leaves it coherent when its list-key drop works and the record key is either dropped or set to the written record |
| StockSvc.StockService.Update | internal/module/module.go:19 | the declared but unimplemented method: returns its given outcome and keeps the repository well-formed |
| StockSvc.StockService.Delete | internal/module/stock/stock_svc.go:104-106 | always succeeds and changes nothing |
| Cache.KeyIDInjective | internal/cache/cache.go:32-34 | record keys are equal iff the ids are equal |
| Cache.KeyFieldInjective | internal/cache/cache.go:36-38 | for one field, lookup keys are equal iff the values are equal |
| Cache.KeyListIsShortest | internal/cache/cache.go:28-38 | the list key is strictly shorter than, hence different from, every record and field key |
| Cache.KeyFieldSharesRecordNamespace | internal/cache/cache.go:32-38 | KeyField(f, v) equals KeyID(f + ":" + v) |
| Cache.GetOne | internal/cache/cache.go:14-18 | a read reports a miss iff the call works and the key is absent, and a hit iff a single record is cached there, returning that record |
| Cache.GetMany | internal/cache/cache.go:14-18 | the same for a cached list |
| Cache.WritesAreReadBack | internal/cache/cache.go:14-18 | the next read of a key returns what a successful Set wrote there and misses after a successful Delete; a failed write changes nothing and no write changes another key's reads |
| RedisKeys.KeyFieldIgnoresValue | redis/keyGen.go:17-23 | KeyField(f, v) is the same key for every v, and equals KeyID(f); so the legacy e-mail key "users:email" is also the record key of a user whose id is "email" |
| RedisKeys.SameRecordKeysAsCache | redis/keyGen.go:13-19 | list and record keys coincide with those of the later generator |
| RedisKeys.FieldKeysDifferFromCache | redis/keyGen.go:21-23 | two different values share one field key here but get different keys from the later generator |
| CacheAside.ItemKeysDistinct | internal/cache/cache.go:28-38 | under either key scheme, distinct records get distinct keys and no record key is the list key |
| CacheAside.HitIsStored | internal/repository/product/product_repo.go:121-141 | under coherence a record hit returns the database's record |
| CacheAside.ListHitIsStored | internal/repository/product/product_repo.go:97-119 | under coherence a list hit returns the database listing |
| CacheAside.DeleteKeepsCoherent | internal/repository/product/product_repo.go:75-94 | deleting a key, or a failed delete, keeps coherence |
| CacheAside.SetItemKeepsCoherent | internal/repository/product/product_repo.go:121-141 | caching the database's own record keeps coherence |
| CacheAside.SetListKeepsCoherent | internal/repository/product/product_repo.go:97-119 | caching the database listing keeps coherence |
| CacheAside.StoreWriteKeepsCoherent | internal/repository/product/product_repo.go:54-73 | a write to one record keeps coherence once its record key and the list key are uncached |
| CacheAside.WriteKeepsCoherent | internal/repository/product/product_repo.go:54-73 | a write keeps coherence if the list key is dropped and the record key is dropped or set to the new record |
| CacheAside.CachedListGoesStale | internal/repository/order/order_repo.go:34-47 | a cached list stops matching once the number of rows changes |
| CacheAside.CoherentReadOne | internal/repository/product/product_repo.go:121-141 | under coherence a successful read-through of one record returns the stored record, and with a working database it succeeds iff the key is stored |
| CacheAside.CoherentReadAll | internal/repository/product/product_repo.go:97-119 | under coherence a successful read-through listing is the database listing, and with a working database it succeeds |
| CacheAside.ReadOneKeepsCoherent | internal/repository/product/product_repo.go:121-141 | the cache a read-through of one record leaves is coherent when the one it started from was: it only ever caches the database's own record |
| Store.Find | internal/repository/user/user_repo.go:196-201 | a lookup by field returns the FIRST stored value satisfying the predicate (every earlier row fails it), and none iff no stored value satisfies it |
| StockRepository.FoundStockIsForProduct | internal/repository/stock/stock_repo.go:113-133 | with records keyed by product, a lookup by product id finds that product's record |
| StockRepository.StockRepo.AddStock | internal/repository/stock/stock_repo.go:33-52 | a failed insert returns the store error with cache and database unchanged; success inserts, deletes the list key and sets the product_id key, and keeps coherence when the list delete works |
| StockRepository.StockRepo.UpdateStock | internal/repository/stock/stock_repo.go:54-89 | a failed read returns with no change; the product_id key is deleted before the write, so a failed write leaves it absent, not stale; success replaces the record, deletes the list key and caches the record; keeps coherence |
| StockRepository.StockRepo.DeleteStock | internal/repository/stock/stock_repo.go:91-110 | deletes the record, then the list key and the product_id key built from the argument; keeps coherence |
| StockRepository.StockRepo.GetStockByProductID | internal/repository/stock/stock_repo.go:113-133 | returns exactly `CacheAside.ReadOne` of the state it starts in: a hit returns with no store read, any other cache result falls back to the store; a store hit is cached and a store error leaves the cache unchanged; under coherence the result is the stored record for that product |
| ProductRepository.ProductRepo.AddProduct | internal/repository/product/product_repo.go:33-52 | store first; on failure nothing changes; success deletes the list key and caches the product; keeps coherence |
| ProductRepository.ProductRepo.UpdateProduct | internal/repository/product/product_repo.go:54-73 | success stores p, deletes the list key and sets KeyID(id) = p, so the next read by id with a working cache hits p; keeps coherence |
| ProductRepository.ProductRepo.DeleteProduct | internal/repository/product/product_repo.go:75-94 | success removes the row and deletes the list key and KeyID(id); keeps coherence |
| ProductRepository.ProductRepo.GetAllProduct | internal/repository/product/product_repo.go:97-119 | returns exactly `CacheAside.ReadAll` of the state it starts in; a store answer is cached; under coherence it returns the database listing and stays coherent |
| ProductRepository.ProductRepo.GetProductByID | internal/repository/product/product_repo.go:121-141 | returns exactly `CacheAside.ReadOne` of the state it starts in; a store hit is cached; under coherence it returns the stored product |
| OrderRepository.OrderRepo.AddOrder | internal/repository/order/order_repo.go:34-47 | success stores the order and sets KeyID but leaves the list key, so an existing cached list becomes stale (coherence is lost exactly then) |
| OrderRepository.OrderRepo.UpdateOrder | internal/repository/order/order_repo.go:49-68 | a store failure returns before any cache call; success deletes the list key and KeyID(id) and sets nothing; keeps coherence |
| OrderRepository.OrderRepo.DeleteOrder | internal/repository/order/order_repo.go:70-89 | success deletes KeyID(id) and the list key; keeps coherence |
| OrderRepository.OrderRepo.GetAllOrder | internal/repository/order/order_repo.go:92-114 | returns exactly `CacheAside.ReadAll` of the state it starts in; under coherence it returns the database listing |
| OrderRepository.OrderRepo.GetOrderByID | internal/repository/order/order_repo.go:116-136 | returns exactly `CacheAside.ReadOne` of the state it starts in; under coherence it returns the stored order |
| UserRepository.EmailKeysAreDistinct | internal/cache/cache.go:36-38 | email keys are equal iff the emails are, and differ from the list key |
| UserRepository.UserRepo.AddUser | internal/repository/user/user_repo.go:33-54 | store first; success deletes the list key and caches the user under its id; the email key is untouched |
| UserRepository.UserRepo.UpdateUser | internal/repository/user/user_repo.go:56-100 | reads the old record from the store; a failed read changes nothing; drops the old email key before the write; success deletes the list key and caches u under its new email and its id; the cache left on every path is `CacheAfterUpdate` |
| UserRepository.UserRepo.DeleteUser | internal/repository/user/user_repo.go:102-133 | success removes the row and deletes the list key, KeyID(id) and the given user's email key (`CacheAfterDelete`); a failure leaves the cache as it was |
| UserRepository.UserRepo.GetAllUser | internal/repository/user/user_repo.go:136-159 | returns exactly `ReadAll` of the state it starts in (cached list on a hit, else the database listing); a store error leaves the cache unchanged |
| UserRepository.UserRepo.GetUserByID | internal/repository/user/user_repo.go:161-183 | returns exactly `ReadByID` of the state it starts in; a store hit is cached under the id key, and the cache left is exactly `CacheAfterReadByID` |
| UserRepository.UserRepo.GetUserByEmail | internal/repository/user/user_repo.go:185-207 | returns exactly `ReadByEmail` of the state it starts in: a hit returns with no store read; a miss reads the first stored user with that email and caches it under the email key; entries of other emails are untouched |
| UserRepository.EmailLookupReturnsThatUser | internal/repository/user/user_repo.go:185-207 | in the two-user scenario, the second email lookup returns the user with the email asked for |
| LegacyProductRepository.ProductRepo.AddProduct | repository/product_repo.go:25-45 | store first; success deletes the list key and sets KeyID(p.ID); keeps coherence |
| LegacyProductRepository.ProductRepo.UpdateProduct | repository/product_repo.go:47-64 | success deletes the list key and sets KeyID(id) = p; keeps coherence |
| LegacyProductRepository.ProductRepo.DeleteProduct | repository/product_repo.go:66-83 | success deletes KeyID(id) and the list key; a store failure returns before any cache call; keeps coherence |
| LegacyProductRepository.ProductRepo.GetAllProduct | repository/product_repo.go:87-107 | read-through of the list; under coherence it returns the database listing |
| LegacyProductRepository.ProductRepo.GetProductByID | repository/product_repo.go:109-127 | read-through of one product; a store error leaves the cache unchanged |
| LegacyOrderRepository.OrderRepo.AddOrder | repository/order_repo.go:25-37 | success sets KeyID(o.ID) and leaves the list key, so a cached list becomes stale |
| LegacyOrderRepository.OrderRepo.UpdateOrder | repository/order_repo.go:39-56 | success deletes KeyID(id) and the list key; keeps coherence |
| LegacyOrderRepository.OrderRepo.DeleteOrder | repository/order_repo.go:58-75 | success deletes KeyID(id) and the list key; keeps coherence |
| LegacyOrderRepository.OrderRepo.GetAllOrder | repository/order_repo.go:79-99 | read-through of the list |
| LegacyOrderRepository.OrderRepo.GetOrderByID | repository/order_repo.go:101-119 | read-through of one order |
| LegacyUserRepository.UserRepo.AddUser | repository/user_repo.go:25-45 | store first; success deletes the list key and sets KeyID(u.ID) = u, so a fresh cached list stays fresh |
| LegacyUserRepository.UserRepo.UpdateUser | repository/user_repo.go:47-67 | success deletes then sets KeyID(id) = u; the list key is left as it was |
| LegacyUserRepository.UserRepo.DeleteUser | repository/user_repo.go:69-81 | success deletes only KeyID(id); a cached list that held the deleted user goes stale |
| LegacyUserRepository.UserRepo.GetAllUser | repository/user_repo.go:83-106 | returns exactly `ReadAll` of the state it starts in; a fresh list stays fresh and is the database listing |
| LegacyUserRepository.UserRepo.GetUserByID | repository/user_repo.go:108-126 | returns exactly `ReadByID` of the state it starts in, leaving the cache `CacheAfterReadByID`: a store hit is cached under the id key |
| LegacyUserRepository.UserRepo.GetUserByEmail | repository/user_repo.go:128-146 | returns exactly `ReadByEmail` of the state it starts in, whose key is "users:email" for every email |
| LegacyUserRepository.EmailLookupReturnsAnotherUser | repository/user_repo.go:128-146 | after a lookup of one user's email, a lookup of another email returns the first user |
| ProductModel.Verify | internal/model/product.go:21-62 | passes iff each set field obeys its rule (title ≥ 2 bytes, price > 0, quantity > 0, detail ≥ 4 bytes); the first broken rule in the order title, price, quantity, detail is the one reported |
| ProductModel.Utf8LengthBounds | internal/model/product.go:48-50 | the byte length counted by Go's len is at least the character count, and equal for ASCII |
| ProductModel.VerifyAcceptsUnsetFields | internal/model/product.go:21-45 | a product with every field unset passes |
| ProductModel.VerifyRejectsNegatives | internal/model/product.go:27-37 | a negative price or quantity is rejected |
| ProductModel.OneCharacterFieldsCountBytes | internal/model/product.go:48-62 | the length rules count bytes: a one-character title passes iff the character is outside ASCII, a one-character detail iff it takes four bytes |
| UserModel.FirstIndex | internal/model/user.go:64-67 | the index of the first occurrence of a character, or the length if there is none |
| UserModel.LastIndex | internal/model/user.go:64-67 | the index of the last occurrence, or −1 |
| UserModel.EmailMatcherIsPattern | internal/model/user.go:64-67 | the matcher accepts exactly the strings of the form local@domain.tld of the e-mail regular expression |
| UserModel.SplitHasOneAt | internal/model/user.go:65 | in any split the pattern accepts, the only '@' is the separator |
| UserModel.ValidEmailHasOneAt | internal/model/user.go:64-67 | a valid e-mail holds exactly one '@' |
| UserModel.Verify | internal/model/user.go:34-62 | passes iff each non-empty field matches its pattern; the username is checked first, then the password, then the e-mail |
| UserModel.VerifyReadsOnlyCredentials | internal/model/user.go:34-75 | two users with the same username, password and e-mail get the same Verify verdict, whatever their id, role or timestamps; the role checks depend only on the role |
| Broker.RouteStockByKey | internal/message_broker/rabbitmq.go:159-201 | only a bare stock body is routed; stock.create, update, increase and decrease give Save, Update, IncreaseQuantity and DecreaseQuantity with the decoded product and quantity |
| Broker.RouteStockByType | internal/message_broker/consume.go:104-147 | only an envelope around a stock is routed, on create_stock, update_stock, increase_stock and decrease_stock |
| Broker.RouteMailByKey | internal/message_broker/rabbitmq.go:103-136 | only a user body is routed; user.create and user.update ask for mail to the user's e-mail |
| Broker.RouteMailByType | internal/message_broker/consume.go:48-79 | only an envelope around a user is routed, on create_user and update_user, to the user's e-mail |
| Broker.StockEventRoutes | internal/message_broker/rabbitmq.go:166-198 | a published stock event routes to a command iff its key is one of the four stock keys, with its product and quantity |
| Broker.UserEventRoutes | internal/message_broker/rabbitmq.go:112-132 | a published user event gives the welcome mail on user.create and the "User Update" notice on user.update |
| Broker.KeyedStockIsAction | internal/message_broker/rabbitmq.go:166-198 | a bare stock under "stock.<a>" asks for exactly the action a |
| Broker.TypedStockIsAction | internal/message_broker/consume.go:116-144 | a stock envelope of type "<a>_stock" asks for exactly the action a |
| Broker.StockRoutingSchemesAgree | internal/message_broker/consume.go:116-144 | "stock.<a>" on a bare stock routes as "<a>_stock" on an envelope, and is routed iff a is one of the four actions |
| Broker.MailRoutingSchemesAgree | internal/message_broker/consume.go:59-76 | "user.<a>" routes as "<a>_user", and is routed iff a is create or update |
| Broker.DispatchedIsSound | internal/message_broker/rabbitmq.go:159-202 | every handled pair is a delivery index whose routing gives that command, in increasing delivery order |
| Broker.DispatchedIsComplete | internal/message_broker/rabbitmq.go:159-202 | every routable delivery is handled |
| Broker.AckedOnSuccessMember | internal/message_broker/rabbitmq.go:166-198 | a delivery is in the ack set iff one of its handled commands succeeded |
| Broker.HandleStock | internal/message_broker/rabbitmq.go:159-202 | the shared stock consumer loop: hands exactly the routable deliveries to the stock service in order, and returns the run of whole repository states (rows and cache): it starts at the old state, ends at the new one, and step k goes from state k to state k + 1 as `Handles` prescribes for command k; under manual ack a delivery is acked iff its handler succeeded and only routable ones are acked, under auto-ack every delivery is acked; deliveries that only create or decrease keep levels non-negative; from a coherent cache, when every step's cache writes work, the cache ends coherent and every product's stored level is `LevelAfter` its old level: the successful commands for it applied in order |
| StockHandler.TraceAppend | internal/message_broker/rabbitmq.go:159-202 | a run of handler steps extended by one more step, from its last state, is again a run |
| Broker.SendMails | internal/message_broker/rabbitmq.go:103-136 | the shared mail consumer loop: one mail per routable delivery, in order, each with the mail server's answer; under manual ack delivery i is acked iff it is routable and its mail was sent, under auto-ack every delivery is acked |
| RabbitMQ.Producer.Publishing | internal/message_broker/rabbitmq.go:58-75 | an accepted publish appends exactly one persistent JSON message with the configured exchange and key; a refused one appends nothing and returns the transport error |
| RabbitMQ.ConsumerService.StockConsuming | internal/message_broker/rabbitmq.go:143-207 | handles exactly the routable deliveries in order, each step's outcome, rows and cache as `Handles` prescribes from the whole state the previous step left (the returned run starts at the old state and ends at the new one), and acks a delivery iff its handler succeeded; unroutable and undecodable ones are neither handled nor acked; deliveries that only create or decrease keep levels non-negative; from a coherent cache with working cache writes it ends coherent with each level `LevelAfter` the run |
| RabbitMQ.ConsumerService.EmailConsuming | internal/message_broker/rabbitmq.go:87-141 | sends one mail per routable delivery, and acks delivery i iff it is routable and its mail was sent |
| EnvelopeConsume.ConsumerService.StockConsuming | internal/message_broker/consume.go:87-153 | handles exactly the envelopes with a stock type, each step's outcome, rows and cache as `Handles` prescribes from the whole state the previous step left, and acks every delivery (auto-ack), whatever the handler returns; from a coherent cache with working cache writes it ends coherent with each level `LevelAfter` the run; also stands for stock_consume.go:23-89 |
| EnvelopeConsume.ConsumerService.EmailConsuming | internal/message_broker/consume.go:31-85 | one mail per create_user or update_user envelope, every delivery acked; also stands for email_consume.go:23-77 and consumer.go:23-91 |
| StockHandler.DecreaseThenIncreaseRestoresLevel | internal/model/stock.go:36-46 | from a level ≥ 0, the decrease command succeeds iff q ≤ level, and then the increase command restores the level |
| StockHandler.OnlyCreateOrDecreaseAppend | internal/message_broker/rabbitmq.go:166-198 | a handled list is create-or-decrease only iff its prefix is and the new command is one of those |
| StockHandler.HandledLevels | internal/module/stock/stock_svc.go:31-102 | from a coherent state whose records are keyed by product, a create, increase or decrease step as `Handles` prescribes leaves every other product's level unchanged, and a successful one leaves its product's level as `Applied` computes from the level before |
| StockHandler.CreateLevels | internal/module/stock/stock_svc.go:31-53 | a create step moves no level but its product's, which becomes the clamped quantity on success; a failure leaves the rows as they were |
| StockHandler.IncreaseLevels | internal/module/stock/stock_svc.go:55-76 | from a coherent state keyed by product, an increase moves no other product's level, a failure leaves the rows, and a success raises its product's level as `Applied` computes |
| StockHandler.DecreaseLevels | internal/module/stock/stock_svc.go:78-102 | the same for a decrease, a success lowering its product's level as `Applied` computes |
| StockHandler.HandledKeepsCoherent | internal/module/stock/stock_svc.go:31-102 | from a coherent state keyed by product, a step as `Handles` prescribes leaves a coherent state whenever the command's cache writes work (create: the list-key drop; increase/decrease: the list-key drop and one record-key call) |
| StockHandler.TraceStep | internal/message_broker/rabbitmq.go:159-202 | in a run, every state up to the last is keyed by product, and step k goes from state k to state k + 1 exactly as `Handles` prescribes for command k |
| StockHandler.RunLevels | internal/message_broker/rabbitmq.go:159-202 | a run from a coherent state whose cache writes all work is coherent after its first n commands, and each product's stored level there is `LevelAfter` its starting level over those n commands |
| StockHandler.RunEndLevels | internal/message_broker/rabbitmq.go:159-202 | the whole run: it ends coherent and every product's final stored level is `LevelAfter` its starting level over the run |
| StockHandler.TraceUpdateOutcomes | internal/message_broker/rabbitmq.go:166-198 | in a run, every update command's outcome is the one its environment supplies |
| StockHandler.ApplyStep | internal/message_broker/rabbitmq.go:166-198 | applies one command to the repository at the end of a run and returns that run extended by the new whole state, again a run; create and decrease keep non-negative levels |
| Broker.HandleDelivery | internal/message_broker/rabbitmq.go:159-202 | one turn of the stock loop: from the progress after i deliveries to the progress after i + 1 (the handled commands are those routed so far, the run of states reaches the repository's, and the acks follow the consumer's ack rule) |
| StockHandler.Apply | internal/message_broker/rabbitmq.go:166-198 | calls the service method the command names: its outcome, new rows and new cache are exactly what `Handles` prescribes from the old rows and cache (create: the insert's result, with the list key dropped and the record cached; increase/decrease: `IncreaseEffect`/`DecreaseEffect`; update: the given outcome); under coherence a success leaves the stored level as `Applied` computes it, and coherence survives when the command's cache writes work |
| ProductSvc.ProductService.Save | internal/module/product/product_svc.go:41-79 | a failed insert is ErrCreateProduct with nothing published; after the insert it publishes "stock.create" with the new id and the requested quantity, and a publish error is returned as it is |
| ProductSvc.ProductService.Update | internal/module/product/product_svc.go:81-128 | rejects, in order, a negative quantity (ErrUpdateProduct), a failed Verify, a missing product (ErrProductNotFound) and a non-owner (ErrPermission), each with no write and no event; `loaded` is exactly the read-through's answer; the call succeeds iff the checks pass, the loaded product belongs to the caller, the write call works on a stored id and the publish is accepted; an event is sent iff the call succeeds, as "stock.update" with the requested quantity; under coherence with a working read `loaded` is the stored product; the cache left is the read-through's, then on a write the list key dropped and KeyID(id) set to the written product, each when its cache call works; from a coherent cache with both write cache calls working it stays coherent |
| ProductSvc.ProductService.Delete | internal/module/product/product_svc.go:130-150 | ErrProductNotFound iff the read-through finds nothing; otherwise it succeeds iff the delete call works, removing the row; there is no ownership check and no event; under coherence with working calls it succeeds iff the product is stored; the cache is the read-through's, with the list key and KeyID(id) dropped after a delete |
| ProductSvc.ProductService.GetAll | internal/module/product/product_svc.go:153-173 | succeeds iff the read-through listing does, with one converted response per listed product in order; under coherence with a working database it succeeds with the database listing |
| ProductSvc.ProductService.Responses | internal/module/product/product_svc.go:165-168 | one converted response per product, in the listing's order and of the same length |
| ProductSvc.ProductService.GetByID | internal/module/product/product_svc.go:175-191 | the converted product the read-through returns, or ErrProductNotFound; under coherence with a working database the product is exactly the stored one (found iff stored); the cache left is exactly the read-through's |
| OrderSvc.OrderService.Save | internal/module/order/order_svc.go:43-81 | the order is built iff the product read-through finds the product; a failed product lookup or insert is ErrCreateOrder with nothing published and the order cache unchanged; after the insert the order is cached under KeyID(its id) when that cache call works, and it publishes "stock.decrease" with the order's product and quantity; a failed publish is ErrCreateOrder with the order kept; the product rows are untouched and the product cache is exactly the read-through's; under product-cache coherence with a working database the order is built iff the product is stored; the order cache stays coherent iff no list is cached (an insert under a cached list leaves it stale) |
| OrderSvc.OrderService.Update | internal/module/order/order_svc.go:83-114 | a failed product read is ErrUpdateOrder; otherwise `loaded` is the order read-through's answer, and a missing order is ErrOrderNotFound; a product id different from the ORDER's id is ErrUpdateOrder; with equal ids the call succeeds iff the write call works on a stored id, writing the loaded order with only its update time changed; no failure writes; the product rows are untouched and the product cache is the read-through's; the order cache is the order read-through's, with the list key and KeyID(id) dropped after a write; coherence survives when both drops work |
| OrderSvc.OrderService.Delete | internal/module/order/order_svc.go:116-159 | `loaded` is exactly the read-through's answer (the stored order, under coherence with a working read); a missing order is ErrOrderNotFound and another user's order ErrDeleteOrder, neither deleting nor publishing; the call succeeds iff the order is found, belongs to the caller, the delete call works and the publish is accepted; a deleted order is followed by "stock.increase" with its product and quantity, and a publish error is returned as it is; the cache is the read-through's, with KeyID(id) and the list key dropped after a delete; coherence survives when both drops work |
| OrderSvc.OrderService.GetAll | internal/module/order/order_svc.go:162-182 | succeeds iff the read-through listing does, with one converted response per listed order in order; under coherence with a working database it succeeds with the database listing |
| OrderSvc.OrderService.Responses | internal/module/order/order_svc.go:175-178 | one converted response per order, in the listing's order and of the same length |
| OrderSvc.OrderService.GetByID | internal/module/order/order_svc.go:184-202 | the converted order the read-through returns, or ErrOrderNotFound; under coherence with a working database the order is exactly the stored one |
| OrderSvc.SaveThenDeleteRestoresStock | internal/module/order/order_svc.go:63-78 | the events of placing and cancelling an order route to DecreaseQuantity and IncreaseQuantity, which restore a level ≥ 0 iff the decrease succeeded |
| UserSvc.Registered | internal/module/user/user_svc.go:46-60 | the stored record has the new id, both timestamps `now` and the hashed password |
| UserSvc.UserService.Save | internal/module/user/user_svc.go:45-82 | a failed Verify is ErrVerifyUser; a failed hash or insert is ErrCreateUser, and none of these publishes or touches the cache; after the insert the list key is dropped and the stored user cached under its id (each when its cache call works), and it publishes "user.create" with the stored user; a failed publish is ErrSendWelcomeEmail with the user kept |
| UserSvc.UserService.Update | internal/module/user/user_svc.go:84-121 | a Verify error is returned as it is, with the cache unchanged, and a missing user is ErrUserNotFound, neither writing; `loaded` is exactly the read-through's answer; the call succeeds iff the user verifies, is found, both write calls work on a stored id and the publish is accepted; a failed write is ErrUpdateUser with no event; a write stores the merged user and publishes "user.update" with it; the cache is the read-through's, then exactly what the repository's `CacheAfterUpdate` leaves for the merged user |
| UserSvc.UserService.Delete | internal/module/user/user_svc.go:123-143 | `loaded` is exactly the read-through's answer; a missing user is ErrUserNotFound; the call succeeds iff the user is found and the delete call works, removing the row; a failed delete is ErrDeleteUser; no event; the cache is the read-through's, and after a delete also the list key, the id key and the loaded user's e-mail key dropped (`CacheAfterDelete`) |
| UserSvc.UserService.GetAll | internal/module/user/user_svc.go:146-160 | succeeds iff the read-through listing does, returning it; any repository error becomes ErrUserNotFound; on a cache miss the result is the database listing |
| UserSvc.UserService.GetByID | internal/module/user/user_svc.go:162-177 | succeeds iff the read-through does, returning its user; any repository error becomes ErrUserNotFound; on a cache miss it succeeds iff the database works and the user is stored |
| UserSvc.UserService.GetByEmail | internal/module/user/user_svc.go:179-194 | succeeds iff the read-through by email does, returning its user; any repository error becomes ErrUserNotFound; on a cache miss it succeeds iff the database works and some stored user has that e-mail, and the user returned has it |
| UserSvc.RegistrationMailsTheUser | internal/module/user/user_svc.go:70-79 | a registration's event is consumed as a welcome mail to the user's e-mail, and an update's as the notice |
| LegacyUserSvc.Enrolled | module/user/user_svc.go:21-27 | the registered record has the new id, the given role, both timestamps `now` and the hash, empty when hashing fails |
| LegacyUserSvc.Merged | module/user/user_svc.go:70-83 | empty username, password and e-mail come from the stored user and set ones are kept; the role is always the stored one |
| LegacyUserSvc.MergeIsIdempotent | module/user/user_svc.go:70-83 | merging twice with the same stored user and time equals merging once |
| LegacyUserSvc.UpdateKeepsRole | module/user/user_svc.go:82 | an update can neither grant nor revoke the SELLER or ADMIN role |
| LegacyUserSvc.ResubmittingChangesOnlyUpdateTime | module/user/user_svc.go:70-83 | merging the stored record into itself changes only its update time |
| LegacyUserSvc.UserService.SaveUser | module/user/user_svc.go:21-38 | stores the user with role USER under the new id (never a seller); a failed insert is ErrCreateUser with the cache unchanged; a stored user drops the list key and is cached under its id, each when its cache call works, and a working list drop leaves the list fresh |
| LegacyUserSvc.UserService.SaveSeller | module/user/user_svc.go:40-57 | stores the user with role SELLER; a failed insert is ErrCreateSeller with the cache unchanged; otherwise the cache changes as in SaveUser |
| LegacyUserSvc.UserService.Update | module/user/user_svc.go:59-93 | `loaded` is exactly the read-through's answer; a missing user is ErrUserNotFound with no write; otherwise it writes the merge of the request over the loaded user, whose role is the loaded role; the call succeeds iff the user is found and the write call works on a stored id; a failed write is ErrUpdateUser; the cache is the read-through's, and after a write the id key is dropped and then set to the merged user, each when its cache call works; the list key is left as it was |
| LegacyUserSvc.UserService.Delete | module/user/user_svc.go:95-115 | `loaded` is exactly the read-through's answer; a missing user is ErrUserNotFound; the call succeeds iff the user is found and the delete call works, removing the row; a failed delete is ErrDeleteUser; the cache is the read-through's, with only the id key dropped after a delete |
| LegacyUserSvc.UserService.GetByID | module/user/user_svc.go:117-128 | succeeds iff the read-through does, returning its user; any repository error becomes ErrUserNotFound; on a cache miss it succeeds iff the user is stored |
| LegacyUserSvc.UserService.GetAll | module/user/user_svc.go:130-140 | succeeds iff the read-through listing does, returning it; any repository error becomes ErrUserNotFound; with a fresh cached list the result is the database listing, and with a working database it succeeds |

## Left out

- Transport: connections, channels, exchange and queue declaration, bindings, consumer goroutines and shutdown. Topic matching is the broker's job. A consumer is a loop over a given sequence of deliveries.
- Message decoding: JSON is lenient (missing fields decode as zero values). The model decodes a body only as the shape it was built as (`Raw`, `Envelope` or `Malformed`). The `ErrMarShal` branch of the product service cannot be reached, because marshalling a plain struct does not fail.
- A failed publish is modelled as a message the broker did not accept: nothing is appended to `sent`.
- Cache expiry (the 15-minute TTLs), logging, clocks and id generation. Times and ids are parameters.
- Password hashing (bcrypt) is a parameter `hash`. The earlier service ignores its error, so a failed hash stores an empty password.
- SMTP and the formatting of mail text: a mail is a `MailCommand` and its delivery is the parameter `mailOk`.
- Concurrency: every call runs to completion before the next one. The read-then-write race between a consumer and an HTTP handler on the same stock record is not modelled.
- Each repository owns its own cache fragment (its key prefix). Cross-prefix collisions are ruled out by the distinct prefixes and are not modelled.
- The database adapters (GORM, Mongo), the Redis client, HTTP handlers, authentication, the message service, object storage and realtime sockets are not part of this model. Nor are the pass-through services under module/order, module/product, module/service and module/user/user_logic.go.
- StockSvc.StockService.Update: the source has no implementation, so its result is an input and its effect on the repository is left open apart from well-formedness.
- Broker.HandleStock, RabbitMQ.ConsumerService.StockConsuming and EnvelopeConsume.ConsumerService.StockConsuming: the end-of-run coherence and `LevelAfter` levels are promised only when every step's cache writes work, and an update command never qualifies, since its effect is left open; a run with a failed cache write or an update keeps only the per-step `Handles` run.
- LegacyUserRepository.UserRepo.DeleteUser: the `user` argument of repository/user_repo.go:69 is not used by the source's body, and the model omits it.
- UserRepository.UserRepo.GetAllUser, UserRepository.UserRepo.GetUserByID and UserRepository.UserRepo.GetUserByEmail: no coherence invariant is stated for the user cache. E-mail entries would need e-mail uniqueness in the database, which the store model does not enforce. The per-operation key effects are stated instead.
- UserSvc.UserService.GetByEmail: on a cache hit the returned user is whatever is cached under the e-mail key. Without a user-cache invariant, nothing more is stated.
- EnvelopeConsume.ConsumerService.StockConsuming and EnvelopeConsume.ConsumerService.EmailConsuming also stand for the single-queue consumers of stock_consume.go, email_consume.go and consumer.go. Those run the same loops with the same dispatch and the same auto-ack.
- ProductRepository.ProductRepo.DeleteProduct: the source takes an unused `product` argument and hands the repository value itself, not a product, to the database delete as its model (internal/repository/product/product_repo.go:75-77). GORM cannot derive the products table from that value (internal/db/psql.go:62-63), so under the PostgreSQL adapter this delete most likely fails and ProductSvc.ProductService.Delete then reports ErrDeleteProduct. The model deletes the row by id, as the service interface (internal/repository/repository.go:39) intends, and omits the argument.
- Store.Update: replaces the whole stored record. The PostgreSQL adapter writes with GORM's `Updates(model)` (internal/db/psql.go:50-51), which skips zero-valued fields. Under that adapter a field set to its zero value keeps its stored value: a stock decrease to exactly 0 (StockSvc.StockService.DecreaseQuantity) is not persisted, and the earlier adapter's `Updates` (db/psql_repo.go:24-29) behaves the same for LegacyUserSvc.UserService.Update.
- Store.Update: reports ErrNotFound when no row has the key, as the PostgreSQL adapter does (internal/db/psql.go:56-58). The Mongo adapter's `UpdateOne` (internal/db/mongo.go:102-108) reports no error for an unmatched id; under it the update methods would report success with nothing written. The earlier adapters (db/psql_repo.go:24-29, db/mongo_repo.go:34-41) do not report it either.
- UserRepository.UserRepo.AddUser and LegacyUserRepository.UserRepo.AddUser: the e-mail column is unique (internal/model/user.go:16), so the database rejects a second user with a stored e-mail. The model's Store.Create rejects only a duplicate id.
- OrderSvc.OrderService.Update: the product-id comparison against the order id is modelled as written; the evidently intended comparison with the order's product id is not.

## Findings

| source | as written | input that shows it | evidently intended | confidence | as-written member | corrected member |
|---|---|---|---|---|---|---|
| redis/keyGen.go:21-23 | `KeyField(field, value)` returns `prefix:field` and drops the value, so repository/user_repo.go:128-146 caches every e-mail lookup under the one key "users:email" | store alice (alice@example.com) and bob (bob@example.com); look up alice@example.com, then bob@example.com: the second lookup hits the cached alice | `prefix:field:value`, as internal/cache/cache.go:36-38 builds it, so each e-mail has its own key | high (not executed) | LegacyUserRepository.EmailLookupReturnsAnotherUser | UserRepository.EmailLookupReturnsThatUser |
