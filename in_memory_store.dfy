/**
 * The in-memory store (src/infrastructure/repositories/InMemoryProductRepository.js): a
 * JavaScript `Map` from id to product, changed in place by `create`, `update` and `delete`,
 * and seeded with a fixed catalog of four products.
 *
 * The clock (`new Date()`) is the parameter `now`; the UUID generator is a parameter
 * holding the id it would produce (`generated`, or `freshIds` for the four seeded products).
 */
module InMemoryStore {
  import opened Wrappers
  import opened OrderedMap
  import opened ProductEntity
  import opened RepositoryContract

  datatype CatalogItem = CatalogItem(name: string, price: Price, description: string)

  /** The default catalog, in seeding order. */
  const DefaultProducts: seq<CatalogItem> := [
    CatalogItem("Laptop", 999.99, "High performance laptop"),
    CatalogItem("Smartphone", 499.99, "Latest model smartphone"),
    CatalogItem("Headphones", 99.99, "Noise cancelling headphones"),
    CatalogItem("Monitor", 299.99, "27-inch 4K monitor")
  ]

  /** `new Product(null, name, price, description)` for the `i`-th default item. */
  function DefaultRecord(i: nat, now: Time): ProductRecord
    requires i < |DefaultProducts|
  {
    var item := DefaultProducts[i];
    NewRecord(None, item.name, item.price, item.description, None, None, now)
  }

  /** The store's map lists each key once in its order, and holds every product under its
      own id. */
  ghost predicate WellFormed(m: OMap<Id, ProductRecord>) {
    m.Valid() && WellKeyed(m.entries)
  }

  /** The map after `create(p)` when the generator yields `generated`. */
  function Created(m: OMap<Id, ProductRecord>, p: ProductRecord, generated: Id): (r: OMap<Id, ProductRecord>)
    requires WellFormed(m)
    ensures WellFormed(r)
  {
    var q := WithId(p, generated);
    m.Set(q.id.value, q)
  }

  /** The in-memory `create` meets the contract's create predicate and stores the submitted
      product itself, id settled, timestamps included. */
  lemma CreatedMeetsCreateSpec(m: OMap<Id, ProductRecord>, p: ProductRecord, generated: Id)
    requires WellFormed(m)
    ensures CreateSpec(m.entries, Created(m, p, generated).entries, p, generated, WithId(p, generated))
    ensures Created(m, p, generated).entries[WithId(p, generated).id.value] == WithId(p, generated)
  {
  }

  /** The map after the first `n` default products have been created in order. */
  function Seeded(m: OMap<Id, ProductRecord>, freshIds: seq<Id>, now: Time, n: nat): (r: OMap<Id, ProductRecord>)
    requires WellFormed(m) && n <= |DefaultProducts| <= |freshIds|
    ensures WellFormed(r)
    ensures n > 0 ==> r.Size() > 0
  {
    if n == 0 then m
    else Created(Seeded(m, freshIds, now, n - 1), DefaultRecord(n - 1, now), freshIds[n - 1])
  }

  /** The map after `initialize()`: seeded when empty, otherwise unchanged. */
  function Initialized(m: OMap<Id, ProductRecord>, freshIds: seq<Id>, now: Time): (r: OMap<Id, ProductRecord>)
    requires WellFormed(m) && |DefaultProducts| <= |freshIds|
    ensures WellFormed(r)
    ensures r.Size() > 0
    ensures m.Size() != 0 ==> r == m
  {
    if m.Size() == 0 then Seeded(m, freshIds, now, |DefaultProducts|) else m
  }

  class InMemoryProductRepository {
    var products: OMap<Id, ProductRecord>

    ghost predicate Valid()
      reads this
    {
      WellFormed(products)
    }

    /** The content seen through the repository contract. */
    function Contents(): Table
      reads this
    {
      products.entries
    }

    /** An empty map, then the default catalog created in order. */
    constructor (freshIds: seq<Id>, now: Time)
      requires |freshIds| == |DefaultProducts|
      ensures Valid()
      ensures products == Seeded(Empty(), freshIds, now, |DefaultProducts|)
    {
      products := Empty();
      new;
      AddDefaultProducts(freshIds, now);
    }

    /** Seeds the default catalog only when the map is empty. */
    method Initialize(freshIds: seq<Id>, now: Time)
      requires Valid() && |freshIds| == |DefaultProducts|
      modifies this
      ensures Valid()
      ensures products == Initialized(old(products), freshIds, now)
      ensures old(products.Size()) != 0 ==> products == old(products)
    {
      if products.Size() == 0 {
        AddDefaultProductsSync(freshIds, now);
      }
    }

    /** Every stored product, in insertion order. */
    method FindAll() returns (r: seq<ProductRecord>)
      requires Valid()
      ensures r == products.Values()
      ensures FindAllSpec(Contents(), r)
    {
      r := [];
      for i := 0 to |products.keys|
        invariant |r| == i
        invariant forall j :: 0 <= j < i ==> r[j] == products.entries[products.keys[j]]
      {
        r := r + [products.entries[products.keys[i]]];
      }
      ValuesAreTheEntries(products);
    }

    /** The stored product, or `None` for `null`. */
    method FindById(id: Id) returns (r: Option<ProductRecord>)
      ensures FindByIdSpec(Contents(), id, r)
    {
      r := products.Get(id);
    }

    /** Stores the product under its id, generating one when the id is falsy. */
    method Create(product: ProductRecord, generated: Id) returns (r: ProductRecord)
      requires Valid()
      modifies this
      ensures Valid()
      ensures CreateSpec(old(Contents()), Contents(), product, generated, r)
      ensures r == WithId(product, generated)
      ensures products == Created(old(products), product, generated)
    {
      r := product;
      if IsFalsy(r.id) {
        r := r.(id := Some(generated));
      }
      CreatedMeetsCreateSpec(products, product, generated);
      products := products.Set(r.id.value, r);
    }

    /** Merges `data` into the stored product, or returns `None` when the id is absent. */
    method Update(id: Id, data: UpdateData, now: Time) returns (r: Option<ProductRecord>)
      requires Valid()
      modifies this
      ensures Valid()
      ensures UpdateSpec(old(Contents()), Contents(), id, data, now, r)
      ensures products.keys == old(products.keys)
    {
      var found := products.Get(id);
      if found.None? {
        return None;
      }
      var updated := Merge(found.value, data, now);
      products := products.Set(id, updated);
      r := Some(updated);
    }

    /** Removes the entry and reports whether there was one. */
    method Delete(id: Id) returns (deleted: bool)
      requires Valid()
      modifies this
      ensures Valid()
      ensures DeleteSpec(old(Contents()), Contents(), id, deleted)
      ensures products == old(products).Delete(id)
    {
      if id !in products.entries {
        return false;
      }
      products := products.Delete(id);
      deleted := true;
    }

    /** The constructor's seeding: four `create` calls started together. None of them
        suspends before its `set`, so they take effect in array order. */
    method AddDefaultProducts(freshIds: seq<Id>, now: Time)
      requires Valid() && |freshIds| == |DefaultProducts|
      modifies this
      ensures Valid()
      ensures products == Seeded(old(products), freshIds, now, |DefaultProducts|)
    {
      AddDefaultProductsSync(freshIds, now);
    }

    /** Creates the default products one after another. */
    method AddDefaultProductsSync(freshIds: seq<Id>, now: Time)
      requires Valid() && |freshIds| == |DefaultProducts|
      modifies this
      ensures Valid()
      ensures products == Seeded(old(products), freshIds, now, |DefaultProducts|)
    {
      for i := 0 to |DefaultProducts|
        invariant Valid()
        invariant products == Seeded(old(products), freshIds, now, i)
      {
        var item := DefaultProducts[i];
        var product := new Product(None, item.name, item.price, item.description, None, None, now);
        var _ := Create(product.Record(), freshIds[i]);
      }
    }
  }

  /** Creating a product without an id under a new generated id appends that id. */
  lemma CreatedUnderNewId(m: OMap<Id, ProductRecord>, p: ProductRecord, generated: Id)
    requires WellFormed(m) && IsFalsy(p.id) && generated !in m.entries
    ensures Created(m, p, generated).keys == m.keys + [generated]
    ensures Created(m, p, generated).entries == m.entries[generated := p.(id := Some(generated))]
  {
  }

  /** The in-memory `create` stores the very product it was given, id settled: a product
      created under an id already in use replaces that entry and the store does not grow. */
  lemma CreateWithExistingIdReplaces(t: Table, t': Table, p: ProductRecord, generated: Id, r: ProductRecord)
    requires CreateSpec(t, t', p, generated, r) && r == WithId(p, generated)
    requires !IsFalsy(p.id) && p.id.value in t
    ensures r == p && t'[p.id.value] == p
    ensures t'.Keys == t.Keys && |t'| == |t|
    ensures forall k :: k in t && k != p.id.value ==> t'[k] == t[k]
  {
    assert t'.Keys == t.Keys;
  }

  /** Round trip through the in-memory store: the product fetched after `create` carries
      the submitted timestamps as well as the submitted data. */
  lemma CreateThenFindByIdKeepsTimestamps(t: Table, t': Table, p: ProductRecord, generated: Id, r: ProductRecord,
                                          found: Option<ProductRecord>)
    requires CreateSpec(t, t', p, generated, r) && r == WithId(p, generated)
    requires FindByIdSpec(t', r.id.value, found)
    ensures found.Some? && found.value.createdAt == p.createdAt && found.value.updatedAt == p.updatedAt
    ensures found.value.name == p.name && found.value.price == p.price && found.value.description == p.description
  {
  }

  /** On an empty map, `initialize()` yields exactly the four default products, in catalog
      order, each under its own new id. */
  lemma InitializeSeedsTheCatalog(m: OMap<Id, ProductRecord>, freshIds: seq<Id>, now: Time)
    requires WellFormed(m) && m.Size() == 0
    requires |freshIds| == |DefaultProducts| && Distinct(freshIds)
    ensures Initialized(m, freshIds, now).Size() == 4
    ensures Initialized(m, freshIds, now).Values() == [
      ProductRecord(Some(freshIds[0]), "Laptop", 999.99, "High performance laptop", now, now),
      ProductRecord(Some(freshIds[1]), "Smartphone", 499.99, "Latest model smartphone", now, now),
      ProductRecord(Some(freshIds[2]), "Headphones", 99.99, "Noise cancelling headphones", now, now),
      ProductRecord(Some(freshIds[3]), "Monitor", 299.99, "27-inch 4K monitor", now, now)]
  {
    SizeIsKeyCount(m);
    SeededFromEmpty(m, freshIds, now, 4);
    var s4 := Seeded(m, freshIds, now, 4);
    SizeIsKeyCount(s4);
    assert Initialized(m, freshIds, now) == s4;
    SeededValuesSpelledOut(freshIds, now);
  }

  /** The products the first `n` seeding steps store, in order, each under its new id. */
  function SeededValues(freshIds: seq<Id>, now: Time, n: nat): (r: seq<ProductRecord>)
    requires n <= |DefaultProducts| <= |freshIds|
    ensures |r| == n
  {
    if n == 0 then []
    else SeededValues(freshIds, now, n - 1) + [DefaultRecord(n - 1, now).(id := Some(freshIds[n - 1]))]
  }

  /** The four seeded products written out. */
  lemma SeededValuesSpelledOut(freshIds: seq<Id>, now: Time)
    requires |freshIds| == |DefaultProducts|
    ensures SeededValues(freshIds, now, 4) == [
      ProductRecord(Some(freshIds[0]), "Laptop", 999.99, "High performance laptop", now, now),
      ProductRecord(Some(freshIds[1]), "Smartphone", 499.99, "Latest model smartphone", now, now),
      ProductRecord(Some(freshIds[2]), "Headphones", 99.99, "Noise cancelling headphones", now, now),
      ProductRecord(Some(freshIds[3]), "Monitor", 299.99, "27-inch 4K monitor", now, now)]
  {
    DefaultRecordsSpelledOut(now);
    assert SeededValues(freshIds, now, 1) == [DefaultRecord(0, now).(id := Some(freshIds[0]))];
    assert SeededValues(freshIds, now, 2) == SeededValues(freshIds, now, 1) + [DefaultRecord(1, now).(id := Some(freshIds[1]))];
    assert SeededValues(freshIds, now, 3) == SeededValues(freshIds, now, 2) + [DefaultRecord(2, now).(id := Some(freshIds[2]))];
  }

  /** The four default products as `new Product(null, …)` builds them at time `now`. */
  lemma DefaultRecordsSpelledOut(now: Time)
    ensures DefaultRecord(0, now) == ProductRecord(None, "Laptop", 999.99, "High performance laptop", now, now)
    ensures DefaultRecord(1, now) == ProductRecord(None, "Smartphone", 499.99, "Latest model smartphone", now, now)
    ensures DefaultRecord(2, now) == ProductRecord(None, "Headphones", 99.99, "Noise cancelling headphones", now, now)
    ensures DefaultRecord(3, now) == ProductRecord(None, "Monitor", 299.99, "27-inch 4K monitor", now, now)
  {
  }

  /** Seeding an empty map with distinct new ids lists the first `n` of them in order and
      `values()` yields the first `n` default products, each under its new id. */
  lemma {:induction false} SeededFromEmpty(m: OMap<Id, ProductRecord>, freshIds: seq<Id>, now: Time, n: nat)
    requires WellFormed(m) && m.keys == []
    requires |freshIds| == |DefaultProducts| && Distinct(freshIds) && n <= |DefaultProducts|
    ensures Seeded(m, freshIds, now, n).keys == freshIds[..n]
    ensures Seeded(m, freshIds, now, n).Values() == SeededValues(freshIds, now, n)
  {
    if n > 0 {
      SeededFromEmpty(m, freshIds, now, n - 1);
      NotBefore(freshIds, n - 1);
      SeedingAppends(m, freshIds, now, n - 1);
    } else {
      assert m.entries == map[];
    }
  }

  /** Seeding the `i`-th default product after the earlier ones appends its new id and
      its product. */
  lemma SeedingAppends(m: OMap<Id, ProductRecord>, freshIds: seq<Id>, now: Time, i: nat)
    requires WellFormed(m) && |freshIds| == |DefaultProducts| && i < |DefaultProducts|
    requires Seeded(m, freshIds, now, i).keys == freshIds[..i] && freshIds[i] !in freshIds[..i]
    ensures Seeded(m, freshIds, now, i + 1).keys == freshIds[..i + 1]
    ensures Seeded(m, freshIds, now, i + 1).Values() ==
            Seeded(m, freshIds, now, i).Values() + [DefaultRecord(i, now).(id := Some(freshIds[i]))]
  {
    var s := Seeded(m, freshIds, now, i);
    var q := DefaultRecord(i, now).(id := Some(freshIds[i]));
    SeededUnfolds(m, freshIds, now, i + 1);
    assert Seeded(m, freshIds, now, i + 1) == s.Set(freshIds[i], q);
    SetNewKeyAppendsValue(s, freshIds[i], q);
    TakeOneMore(freshIds, i);
  }

  /** Taking one more element of a sequence appends it. */
  lemma TakeOneMore<T>(s: seq<T>, i: nat)
    requires i < |s|
    ensures s[..i + 1] == s[..i] + [s[i]]
  {
  }

  /** One step of `Seeded`. */
  lemma SeededUnfolds(m: OMap<Id, ProductRecord>, freshIds: seq<Id>, now: Time, n: nat)
    requires WellFormed(m) && |freshIds| == |DefaultProducts| && 0 < n <= |DefaultProducts|
    ensures Seeded(m, freshIds, now, n) == Created(Seeded(m, freshIds, now, n - 1), DefaultRecord(n - 1, now), freshIds[n - 1])
  {
  }

  /** `initialize()` is idempotent: once it has run, running it again changes nothing. */
  lemma InitializeIdempotent(m: OMap<Id, ProductRecord>, freshIds: seq<Id>, now: Time, moreIds: seq<Id>, later: Time)
    requires WellFormed(m) && |freshIds| == |DefaultProducts| && |moreIds| == |DefaultProducts|
    ensures WellFormed(Initialized(m, freshIds, now))
    ensures Initialized(Initialized(m, freshIds, now), moreIds, later) == Initialized(m, freshIds, now)
  {
  }

  /** A freshly constructed store is already seeded, so a following `initialize()` does
      nothing. */
  lemma ConstructedStoreIgnoresInitialize(freshIds: seq<Id>, now: Time, moreIds: seq<Id>, later: Time)
    requires |freshIds| == |DefaultProducts| && |moreIds| == |DefaultProducts|
    ensures var s := Seeded(Empty(), freshIds, now, |DefaultProducts|);
            Initialized(s, moreIds, later) == s
  {
  }
}
