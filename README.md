# Product catalog persistence boundary, in Dafny

This project models the persistence core of a small product-catalog service:

- the `Product` entity, its constructor's timestamp defaults and its partial-update (merge) rule;
- the repository contract that every storage backend follows, with its not-found semantics
  (`null` from `findById` and `update`, `false` from `delete`);
- the in-memory repository: a JavaScript `Map` from id to product that is changed in place by
  `create`, `update` and `delete`, and seeded with a fixed four-item catalog;
- the factory that picks the backend from the `REPOSITORY_TYPE` setting.

Modules, one per source file, plus two helper modules:

| file | module | models |
|---|---|---|
| `wrappers.dfy` | `Wrappers` | `Option` for `null`/`undefined`, and `Result` for a rejected promise |
| `ordered_map.dfy` | `OrderedMap` | the JavaScript `Map`: entries plus key insertion order (`set`, `delete`, `get`, `values`, `size`) |
| `product.dfy` | `ProductEntity` | `src/domain/entities/Product.js` |
| `repository_contract.dfy` | `RepositoryContract` | `src/domain/repositories/ProductRepository.js` |
| `in_memory_store.dfy` | `InMemoryStore` | `src/infrastructure/repositories/InMemoryProductRepository.js` |
| `repository_factory.dfy` | `RepositoryFactory` | `src/infrastructure/factories/RepositoryFactory.js` |

Design of the model:

- **Product objects and their values.** `Product` is a class with the six fields of the
  JavaScript object. Its constructor applies the timestamp defaults, and its `Update` method
  changes the fields in place. The value an object holds is a `ProductRecord`. `Merge` is the
  effect of `update` on such a value.
- **Stored values, not objects.** The in-memory store keeps `ProductRecord` values. Its
  `update` replaces the map entry with the merged value.
- **The contract.** The documented return semantics of the repository methods are predicates
  over the abstract content of a store, a map from id to product: `FindAllSpec`,
  `FindByIdSpec`, `CreateSpec`, `UpdateSpec` and `DeleteSpec`. They describe a call that
  completes, and fix only what both stores of the system do then. `CreateSpec` settles the
  id and keeps the submitted name, price and description. It leaves the timestamps open,
  because the MySQL store stamps a created product with the current time. Each method of the
  in-memory class promises the matching predicate. The lemmas of `RepositoryContract` then
  derive the promised behaviour from the predicates alone, so they hold for any store that
  meets them. Examples: delete twice, update of an absent id, and the create-then-find round
  trip. What only the in-memory `create` does is stated in `InMemoryStore`: it keeps the
  submitted timestamps and replaces an entry already under the id.
- **The abstract base class.** The base class `ProductRepository` holds no state. Its methods
  reject, which is modelled as returning `Failure(NotImplemented)`.
- **The in-memory store's `Map`.** It is an `OMap`: the entries together with the order in
  which their keys were first inserted. `findAll` returns values in that order. Setting a key
  that is already present keeps its position. Deleting a key removes it from the order.
- **Clock and UUIDs.** `new Date()` is the parameter `now`. `uuidv4()` is a parameter holding
  the id the generator would return: `generated` for `create`, and `freshIds` (four of them)
  for seeding. That a generated id is new is never assumed by the operations themselves. It
  is only a hypothesis of the lemmas that need it, because `Map.set` on an existing key
  simply overwrites it.
- **Seeding at construction.** The constructor's `addDefaultProducts` starts four `create`
  calls through `Promise.all`. `create` contains no `await`, so each `set` happens before the
  next call starts, in array order. The store therefore holds the four products when the
  constructor returns. The model seeds sequentially inside the constructor, and a later
  `initialize()` finds the store non-empty and does nothing (`ConstructedStoreIgnoresInitialize`).
- **Backend selection.** The factory is a pure function of the `REPOSITORY_TYPE` value (`None`
  when unset) and of the outcome of creating the MySQL pool, which it consults only on the
  MySQL branch.

Behaviour of the code that the model keeps, although one might expect otherwise:

- The in-memory `create` does not set the timestamps. It keeps the ones the `Product`
  constructor gave the object.
- The constructor's seeding is not a race with `initialize()`, because it completes
  synchronously.
- `updatedAt` is the clock reading of the last update. It is greater than before only when
  the clock has moved on, and nothing makes `updatedAt >= createdAt` hold for timestamps a
  caller supplies.

## Model

| member | source | states |
|---|---|---|
| `ProductEntity.Product.constructor` | src/domain/entities/Product.js:35-42 | `id`, `name`, `price`, `description` are stored as passed; a missing `createdAt`/`updatedAt` becomes the current time, a supplied one is kept |
| `ProductEntity.OrNow` | src/domain/entities/Product.js:40-41 | `createdAt \|\| new Date()`: a supplied timestamp (every `Date` is truthy) is kept, a missing one becomes the current time |
| `ProductEntity.NewRecord` | src/domain/entities/Product.js:35-42 | the value `new Product(...)` builds: `id`, `name`, `price`, `description` as passed, each timestamp the supplied one or else the current time |
| `ProductEntity.Product.Update` | src/domain/entities/Product.js:44-49 | each of `name`, `price`, `description` is replaced only when supplied; `id` and `createdAt` are unchanged; `updatedAt` becomes the current time; the new value is `Merge` of the old one |
| `ProductEntity.Merge` | src/domain/entities/Product.js:44-49 | the value after an update: each of `name`, `price`, `description` is replaced when supplied and kept otherwise; `id` and `createdAt` are unchanged; `updatedAt` is the current time |
| `ProductEntity.EmptyUpdateOnlyRefreshes` | src/domain/entities/Product.js:48 | an update supplying no field still refreshes `updatedAt` and changes nothing else |
| `ProductEntity.MergeComposes` | src/domain/entities/Product.js:44-49 | two successive updates equal one update carrying the fields of both, the later one winning |
| `ProductEntity.MergeIdempotent` | src/domain/entities/Product.js:44-49 | repeating an update at the same instant changes nothing further |
| `ProductEntity.PriceOnlyUpdateExample` | src/domain/entities/Product.js:45-48 | `{price: 10}` on `{name: "X", price: 5, description: "d"}` gives `{name: "X", price: 10, description: "d"}` with `createdAt` kept; `updatedAt` grows exactly when the clock has moved past it |
| `RepositoryContract.WithId` | src/infrastructure/repositories/InMemoryProductRepository.js:53-55 | the created product always has an id: its own when truthy, otherwise the generated one |
| `RepositoryContract.IsFalsy` | src/infrastructure/repositories/InMemoryProductRepository.js:53 | `!product.id` on a string, `null` or `undefined`: falsy exactly when the id is missing or the empty string, so a truthy id is a non-empty string |
| `RepositoryContract.FindAllSpec` | src/domain/repositories/ProductRepository.js:6-12 | `findAll` returns as many products as there are stored ids, every stored product and only stored products, in some order (each exactly once for a table that keeps each product under its own id, by `FindAllListsEachOnce`); it is empty exactly when the store is |
| `RepositoryContract.FindAllListsEachOnce` | src/domain/repositories/ProductRepository.js:6-12 | for a table that keeps each product under its own id, a `findAll` result meeting the contract lists no product twice, so it holds every stored product exactly once |
| `RepositoryContract.FindByIdSpec` | src/domain/repositories/ProductRepository.js:14-21 | `findById` returns the stored product for a present id and `null`, not an error, exactly when the id is absent |
| `RepositoryContract.CreateSpec` | src/domain/repositories/ProductRepository.js:23-30 | `create` returns the product with its id settled by `WithId` (its own when truthy, the generated one otherwise) and the submitted name, price and description; it is stored under that id, the set of ids gains exactly that id and every other entry is unchanged; the timestamps are left open |
| `RepositoryContract.UpdateSpec` | src/domain/repositories/ProductRepository.js:32-40 | `update` returns `null` and changes nothing exactly when the id is absent; otherwise it returns the merge of the stored product with the data and stores it in its place, keeping the set of ids |
| `RepositoryContract.DeleteSpec` | src/domain/repositories/ProductRepository.js:42-49 | `delete` returns true exactly when the id was present; afterwards the id is absent and every other entry is unchanged |
| `RepositoryContract.ProductRepository.FindAll` | src/domain/repositories/ProductRepository.js:10-12 | the base class rejects with "not implemented" |
| `RepositoryContract.ProductRepository.FindById` | src/domain/repositories/ProductRepository.js:19-21 | the base class rejects with "not implemented" |
| `RepositoryContract.ProductRepository.Create` | src/domain/repositories/ProductRepository.js:28-30 | the base class rejects with "not implemented" |
| `RepositoryContract.ProductRepository.Update` | src/domain/repositories/ProductRepository.js:38-40 | the base class rejects with "not implemented" |
| `RepositoryContract.ProductRepository.Delete` | src/domain/repositories/ProductRepository.js:47-49 | the base class rejects with "not implemented" |
| `RepositoryContract.UpdateAbsentChangesNothing` | src/domain/repositories/ProductRepository.js:32-40 | under the contract, updating an absent id returns null and neither creates nor changes an entry |
| `RepositoryContract.UpdatePresentChangesOnlyThatEntry` | src/infrastructure/repositories/InMemoryProductRepository.js:74-77 | under the contract, updating a present id keeps the set of ids, changes only that entry, returns the stored result and keeps its `id` and `createdAt` |
| `RepositoryContract.DeleteTwice` | src/domain/repositories/ProductRepository.js:42-49 | under the contract, the first delete reports whether the id was present; a second delete of the same id returns false and changes nothing; other entries survive |
| `RepositoryContract.CreateWithoutIdAddsOne` | src/infrastructure/repositories/InMemoryProductRepository.js:53-58 | a product without an id gets the generated id; when that id is new, the store grows by exactly one and earlier entries are untouched |
| `RepositoryContract.CreateThenFindById` | src/domain/repositories/ProductRepository.js:23-30 | under the contract, a created product fetched by its id is found and has the submitted name, price and description, and its id is the submitted one when truthy and the generated one otherwise |
| `RepositoryContract.ContractKeepsWellKeyed` | src/infrastructure/repositories/InMemoryProductRepository.js:57 | every store meeting the contract's create, update and delete keeps every product under its own id |
| `RepositoryContract.TwoCreatesThenFindAll` | src/domain/repositories/ProductRepository.js:6-21 | after creating two id-less products under distinct new ids, `findAll` returns both and each is retrievable by its id |
| `OrderedMap.OMap.Set` | src/infrastructure/repositories/InMemoryProductRepository.js:57 | `Map.set`: the key maps to the new value, every other key keeps its value, an existing key keeps its position and a new one is appended, and the size grows only for a new key |
| `OrderedMap.OMap.Delete` | src/infrastructure/repositories/InMemoryProductRepository.js:90 | `Map.delete`: the key is gone, every other key keeps its value and relative order, and the size drops by one exactly when the key was present |
| `OrderedMap.OMap.Get` | src/infrastructure/repositories/InMemoryProductRepository.js:43 | `Map.get` yields a value exactly when the key is present, and then the stored one |
| `OrderedMap.OMap.Size` | src/infrastructure/repositories/InMemoryProductRepository.js:23 | `Map.prototype.size`: the number of entries, zero exactly when the map has none |
| `OrderedMap.SizeIsKeyCount` | src/infrastructure/repositories/InMemoryProductRepository.js:23 | the size of a well-formed map equals the number of keys in its insertion order |
| `OrderedMap.OMap.Values` | src/infrastructure/repositories/InMemoryProductRepository.js:34 | `values()` lists the value under each key in insertion order, one per key |
| `OrderedMap.Empty` | src/infrastructure/repositories/InMemoryProductRepository.js:10 | `new Map()` is a well-formed map with no keys and size zero |
| `OrderedMap.WithoutKeepsOrder` | src/infrastructure/repositories/InMemoryProductRepository.js:90 | removing a key from the insertion order keeps the relative order of the remaining keys: filtering a concatenation filters each part in place |
| `OrderedMap.SetNewKeyAppendsValue` | src/infrastructure/repositories/InMemoryProductRepository.js:57 | setting a key that is not present appends its value at the end of `values()` |
| `OrderedMap.ValuesInKeyOrder` | src/infrastructure/repositories/InMemoryProductRepository.js:34 | `values()` is determined by the key order and the value under each key |
| `OrderedMap.ValuesAreTheEntries` | src/infrastructure/repositories/InMemoryProductRepository.js:34 | `values()` yields one value per key: every stored value and nothing else |
| `InMemoryStore.Created` | src/infrastructure/repositories/InMemoryProductRepository.js:51-59 | the map after `create` is well-formed: each key listed once in order, and every product under its own id |
| `InMemoryStore.CreatedMeetsCreateSpec` | src/infrastructure/repositories/InMemoryProductRepository.js:51-59 | the map after the in-memory `create` meets the contract's create predicate and holds the submitted product itself, id settled and timestamps included |
| `InMemoryStore.Seeded` | src/infrastructure/repositories/InMemoryProductRepository.js:128-147 | creating default products one after another keeps the store well-formed and leaves it non-empty |
| `InMemoryStore.Initialized` | src/infrastructure/repositories/InMemoryProductRepository.js:21-27 | the map after `initialize()`: unchanged when it was non-empty, seeded otherwise; never empty afterwards and always well-formed |
| `InMemoryStore.InMemoryProductRepository.constructor` | src/infrastructure/repositories/InMemoryProductRepository.js:8-14 | a new store is an empty map seeded with the default catalog |
| `InMemoryStore.InMemoryProductRepository.Initialize` | src/infrastructure/repositories/InMemoryProductRepository.js:21-27 | seeds the catalog only when the map is empty, and otherwise changes nothing |
| `InMemoryStore.InMemoryProductRepository.FindAll` | src/infrastructure/repositories/InMemoryProductRepository.js:33-35 | returns the stored values in insertion order, one per key, and meets the contract's `findAll` predicate |
| `InMemoryStore.InMemoryProductRepository.FindById` | src/infrastructure/repositories/InMemoryProductRepository.js:42-44 | returns the stored product for a present id and null otherwise, changing nothing |
| `InMemoryStore.InMemoryProductRepository.Create` | src/infrastructure/repositories/InMemoryProductRepository.js:51-59 | stores the submitted product, timestamps included, under its id, generating one when the id is falsy, and returns it; an existing entry is replaced in place |
| `InMemoryStore.InMemoryProductRepository.Update` | src/infrastructure/repositories/InMemoryProductRepository.js:67-78 | an absent id returns null and changes nothing; a present id has exactly that entry merged and returned, and the key order is unchanged |
| `InMemoryStore.InMemoryProductRepository.Delete` | src/infrastructure/repositories/InMemoryProductRepository.js:85-92 | removes exactly that key and returns true, or returns false and changes nothing when it is absent |
| `InMemoryStore.InMemoryProductRepository.AddDefaultProducts` | src/infrastructure/repositories/InMemoryProductRepository.js:98-121 | the constructor's seeding has the same effect as creating the four defaults in array order |
| `InMemoryStore.InMemoryProductRepository.AddDefaultProductsSync` | src/infrastructure/repositories/InMemoryProductRepository.js:128-147 | creates the four default products one after another, each as a new `Product` with a generated id |
| `InMemoryStore.CreatedUnderNewId` | src/infrastructure/repositories/InMemoryProductRepository.js:53-58 | creating an id-less product under a new generated id appends that id and stores the product under it |
| `InMemoryStore.CreateWithExistingIdReplaces` | src/infrastructure/repositories/InMemoryProductRepository.js:57-58 | in the in-memory store, creating under an id already in use replaces that entry with the submitted product: the ids and the size stay the same and other entries are untouched |
| `InMemoryStore.CreateThenFindByIdKeepsTimestamps` | src/infrastructure/repositories/InMemoryProductRepository.js:51-59 | in the in-memory store, a created product fetched by its id carries the submitted timestamps, name, price and description |
| `InMemoryStore.InitializeSeedsTheCatalog` | src/infrastructure/repositories/InMemoryProductRepository.js:130-135 | on an empty map with distinct generated ids, `initialize()` yields exactly Laptop 999.99, Smartphone 499.99, Headphones 99.99 and Monitor 299.99, in that order, each under its own id and timestamped now |
| `InMemoryStore.SeededFromEmpty` | src/infrastructure/repositories/InMemoryProductRepository.js:138-146 | seeding an empty map with distinct new ids lists the first `n` ids in order, and `values()` yields the first `n` default products, each under its new id |
| `InMemoryStore.SeedingAppends` | src/infrastructure/repositories/InMemoryProductRepository.js:139-145 | each seeding step appends the new id to the key order and the new product to `values()` |
| `InMemoryStore.DefaultRecordsSpelledOut` | src/infrastructure/repositories/InMemoryProductRepository.js:130-144 | the four default products as `new Product(null, name, price, description)` builds them: no id, the catalog name, price and description, both timestamps the current time |
| `InMemoryStore.InitializeIdempotent` | src/infrastructure/repositories/InMemoryProductRepository.js:21-27 | once `initialize()` has run, running it again changes nothing |
| `InMemoryStore.ConstructedStoreIgnoresInitialize` | src/infrastructure/repositories/InMemoryProductRepository.js:8-27 | a newly constructed store is already seeded, so `initialize()` leaves it unchanged |
| `RepositoryFactory.ConfiguredType` | src/infrastructure/factories/RepositoryFactory.js:14 | an unset or empty `REPOSITORY_TYPE` becomes `"memory"`; a non-empty one is used as is |
| `RepositoryFactory.LowerChar` | src/infrastructure/factories/RepositoryFactory.js:16 | a capital ASCII letter becomes its lower-case letter; every other character is unchanged |
| `RepositoryFactory.ToLower` | src/infrastructure/factories/RepositoryFactory.js:16 | `toLowerCase` keeps the length and lower-cases each character in place |
| `RepositoryFactory.CreateProductRepository` | src/infrastructure/factories/RepositoryFactory.js:13-25 | the result is other than the in-memory store exactly when the value lower-cases to `"mysql"`; then it is a MySQL store over the new pool, or the pool's failure, propagated |
| `RepositoryFactory.ToLowerIdempotent` | src/infrastructure/factories/RepositoryFactory.js:16 | lower-casing an already lower-cased value changes nothing |
| `RepositoryFactory.UnsetSelectsMemory` | src/infrastructure/factories/RepositoryFactory.js:14 | unset or empty configuration yields the in-memory store, whatever the pool |
| `RepositoryFactory.SelectionIgnoresCase` | src/infrastructure/factories/RepositoryFactory.js:16 | a value and its lower-case form select the same backend |
| `RepositoryFactory.CasingExamples` | src/infrastructure/factories/RepositoryFactory.js:16-23 | `"MySQL"` and `"MYSQL"` select MySQL; `"Memory"` and `"postgres"` select the in-memory store |

## Left out

- The MySQL repository (`src/infrastructure/repositories/MySQLProductRepository.js`) is not part of this model. The contract predicates fix only what it shares with the in-memory store; its failures (a database error, or an insert under an id already in use) are not modelled. Each of its operations is a query whose behaviour lives in the database and its driver. Its update merge repeats `Product.update`, which is modelled.
- Pool creation and the connectivity probe (`src/infrastructure/config/database.js`) are I/O. The factory receives their outcome as a `Result`.
- The HTTP layer, the process start-up and the application service are not part of this model. They are routing and forwarding. `ProductService.createProduct` builds a `Product` from `id`, `name`, `price` and `description` only.
- Interchangeable stores behind one interface type: the contract is a set of predicates that each store promises. No client is written generically over "any repository".
- Promise machinery: the async signatures, `Promise.all` and the `console.error` in its `catch` are left out. The in-memory `create` never throws, so that `catch` is unreachable. All operations run to completion in sequence.
- Object aliasing: the in-memory store returns and re-stores the very object a caller holds, so a caller's later mutation of it would change the store. The model stores and returns values instead.
- The clock: each operation reads a single `now`. The `Product` constructor reads the clock separately for `createdAt` and for `updatedAt`, and seeding reads it again for each product. These readings may differ by a millisecond; the model gives them one value.
- UUID generation: the generated id is a parameter. That it is new and distinct is a hypothesis of the lemmas that need it, not something the code checks.
- JavaScript values outside the modelled types: ids are strings, `null` or `undefined`. `name`, `price` and `description` come from a request body and may be `undefined` (the description is optional) or any JSON value, while the model types them as strings and a real. No operation of the core branches on those three fields. A numeric id, which the `Map` would key differently from its string form, is not modelled. An update field that is present but `null` would store `null`; the model's update data can only supply a value or leave the field undefined.
- Prices are `real` values instead of IEEE doubles. They are only stored and copied.
- RepositoryFactory.LowerChar, RepositoryFactory.ToLower: lower-case only the ASCII letters `A`-`Z`, where JavaScript's `toLowerCase` applies full Unicode case mapping. No other character lower-cases to a letter of `"mysql"`, so the backend decision is unaffected.
- RepositoryFactory.CreateProductRepository returns which backend is built, not the store object. Constructing and seeding the in-memory store is `InMemoryProductRepository.constructor`.
