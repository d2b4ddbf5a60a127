/**
 * The repository contract (src/domain/repositories/ProductRepository.js).
 *
 * The JavaScript base class only documents what `findAll`, `findById`, `create`, `update`
 * and `delete` return, and every one of its methods rejects with "Method not implemented".
 * Here that behaviour is a set of predicates over the abstract content of a store, a table
 * from id to product, describing a call that completes; a concrete store promises them in
 * its method postconditions. They fix only what both stores of the system do on success:
 * the MySQL store, for one, stamps a created product with the current time and fails on an
 * id already in use, so the in-memory store's stronger `create` is stated in its own module.
 * The base class itself is `ProductRepository`, whose methods fail.
 */
module RepositoryContract {
  import opened Wrappers
  import opened ProductEntity

  /** What a store holds, seen through the contract. */
  type Table = map<Id, ProductRecord>

  datatype RepositoryError = NotImplemented

  /** Every product is stored under its own id. */
  ghost predicate WellKeyed(t: Table) {
    forall k :: k in t ==> t[k].id == Some(k)
  }

  /** `!product.id` for an id that is a string, `null` or `undefined`: the only falsy string
      is the empty one, so a truthy id is a non-empty string. */
  predicate IsFalsy(id: Option<Id>): (r: bool)
    ensures r <==> id.None? || |id.value| == 0
    ensures !r ==> id.Some? && |id.value| > 0
  {
    id.None? || id.value == ""
  }

  /** The product `create` stores: its own id when truthy, otherwise the generated one. */
  function WithId(p: ProductRecord, generated: Id): (r: ProductRecord)
    ensures r.id.Some?
    ensures !IsFalsy(p.id) ==> r == p
    ensures IsFalsy(p.id) ==> r == p.(id := Some(generated))
  {
    if IsFalsy(p.id) then p.(id := Some(generated)) else p
  }

  /** `findAll`: all stored products, one per key, in some order. */
  ghost predicate FindAllSpec(t: Table, r: seq<ProductRecord>)
    ensures FindAllSpec(t, r) ==> (r == [] <==> t == map[])
  {
    && |r| == |t|
    && (forall k :: k in t ==> t[k] in r)
    && (forall p :: p in r ==> exists k :: k in t && t[k] == p)
  }

  /** `findById`: the stored product, or `null` (never an error) when the id is absent. */
  predicate FindByIdSpec(t: Table, id: Id, r: Option<ProductRecord>)
    ensures FindByIdSpec(t, id, r) ==> (r.None? <==> id !in t)
    ensures FindByIdSpec(t, id, r) && r.Some? ==> r.value == t[id]
  {
    r == if id in t then Some(t[id]) else None
  }

  /** `create`: the returned product has the settled id and the submitted name, price and
      description, and is stored under that id; every other entry stays as it was. The
      timestamps are left to the store. */
  predicate CreateSpec(t: Table, t': Table, p: ProductRecord, generated: Id, r: ProductRecord)
    ensures CreateSpec(t, t', p, generated, r) ==>
      && r.id.Some? && r.id.value in t' && t'[r.id.value] == r
      && t'.Keys == t.Keys + {r.id.value}
      && (IsFalsy(p.id) ==> r.id == Some(generated))
      && (!IsFalsy(p.id) ==> r.id == p.id)
  {
    && r.id == WithId(p, generated).id
    && r.name == p.name && r.price == p.price && r.description == p.description
    && t' == t[r.id.value := r]
  }

  /** `update`: `null` and no change for an absent id; otherwise the merged product,
      stored in place of the old one and returned. */
  predicate UpdateSpec(t: Table, t': Table, id: Id, data: UpdateData, now: Time, r: Option<ProductRecord>)
    ensures UpdateSpec(t, t', id, data, now, r) ==> (r.None? <==> id !in t) && t'.Keys == t.Keys
  {
    if id in t then r == Some(Merge(t[id], data, now)) && t' == t[id := r.value]
    else r == None && t' == t
  }

  /** `delete`: `true` exactly when the id was present; the id is gone afterwards. */
  predicate DeleteSpec(t: Table, t': Table, id: Id, r: bool)
    ensures DeleteSpec(t, t', id, r) ==> (r <==> id in t) && id !in t' && t'.Keys == t.Keys - {id}
  {
    r == (id in t) && t' == t - {id}
  }

  /** The abstract base class: it holds no state and every method rejects. */
  class ProductRepository {
    constructor ()
    {
    }

    method FindAll() returns (r: Result<seq<ProductRecord>, RepositoryError>)
      ensures r == Failure(NotImplemented)
    {
      r := Failure(NotImplemented);
    }

    method FindById(id: Id) returns (r: Result<Option<ProductRecord>, RepositoryError>)
      ensures r == Failure(NotImplemented)
    {
      r := Failure(NotImplemented);
    }

    method Create(product: ProductRecord) returns (r: Result<ProductRecord, RepositoryError>)
      ensures r == Failure(NotImplemented)
    {
      r := Failure(NotImplemented);
    }

    method Update(id: Id, data: UpdateData) returns (r: Result<Option<ProductRecord>, RepositoryError>)
      ensures r == Failure(NotImplemented)
    {
      r := Failure(NotImplemented);
    }

    method Delete(id: Id) returns (r: Result<bool, RepositoryError>)
      ensures r == Failure(NotImplemented)
    {
      r := Failure(NotImplemented);
    }
  }

  /** Updating an absent id neither creates nor changes an entry. */
  lemma UpdateAbsentChangesNothing(t: Table, t': Table, id: Id, data: UpdateData, now: Time, r: Option<ProductRecord>)
    requires UpdateSpec(t, t', id, data, now, r)
    requires id !in t
    ensures r == None && t' == t && id !in t'
  {
  }

  /** Updating a present id changes that entry only, and keeps the set of ids. */
  lemma UpdatePresentChangesOnlyThatEntry(t: Table, t': Table, id: Id, data: UpdateData, now: Time, r: Option<ProductRecord>)
    requires UpdateSpec(t, t', id, data, now, r)
    requires id in t
    ensures t'.Keys == t.Keys
    ensures r.Some? && t'[id] == r.value
    ensures r.value.id == t[id].id && r.value.createdAt == t[id].createdAt
    ensures forall k :: k in t && k != id ==> t'[k] == t[k]
  {
  }

  /** Deleting twice: the second call finds nothing and changes nothing. */
  lemma DeleteTwice(t0: Table, t1: Table, t2: Table, id: Id, r1: bool, r2: bool)
    requires DeleteSpec(t0, t1, id, r1) && DeleteSpec(t1, t2, id, r2)
    ensures r1 <==> id in t0
    ensures !r2 && t2 == t1 && id !in t2
    ensures forall k :: k in t0 && k != id ==> k in t2 && t2[k] == t0[k]
  {
  }

  /** A product created without an id gets the generated one; when that id is new, the
      store grows by exactly one entry and the earlier entries are untouched. */
  lemma CreateWithoutIdAddsOne(t: Table, t': Table, p: ProductRecord, generated: Id, r: ProductRecord)
    requires CreateSpec(t, t', p, generated, r)
    requires IsFalsy(p.id) && generated !in t
    ensures r.id == Some(generated)
    ensures t'.Keys == t.Keys + {generated}
    ensures |t'| == |t| + 1
    ensures forall k :: k in t ==> t'[k] == t[k]
  {
    assert t'.Keys == t.Keys + {generated};
  }

  /** Round trip: a created product fetched by its id has the submitted name, price and
      description, and a populated id. */
  lemma CreateThenFindById(t: Table, t': Table, p: ProductRecord, generated: Id, r: ProductRecord, found: Option<ProductRecord>)
    requires CreateSpec(t, t', p, generated, r)
    requires FindByIdSpec(t', r.id.value, found)
    ensures found == Some(r)
    ensures r.name == p.name && r.price == p.price && r.description == p.description
    ensures IsFalsy(p.id) ==> r.id == Some(generated)
    ensures !IsFalsy(p.id) ==> r.id == p.id
  {
  }

  /** Each operation of the contract keeps every product under its own id. */
  lemma ContractKeepsWellKeyed(t: Table, p: ProductRecord, generated: Id, created: ProductRecord, tc: Table,
                               id: Id, data: UpdateData, now: Time, updated: Option<ProductRecord>, tu: Table,
                               deleted: bool, td: Table)
    requires WellKeyed(t)
    ensures CreateSpec(t, tc, p, generated, created) ==> WellKeyed(tc)
    ensures UpdateSpec(t, tu, id, data, now, updated) ==> WellKeyed(tu)
    ensures DeleteSpec(t, td, id, deleted) ==> WellKeyed(td)
  {
  }

  /** After two products without ids are created under distinct new ids, `findAll` returns
      both and each can be fetched by its id. */
  lemma TwoCreatesThenFindAll(t0: Table, t1: Table, t2: Table, laptop: ProductRecord, phone: ProductRecord,
                              a: Id, b: Id, r1: ProductRecord, r2: ProductRecord, all: seq<ProductRecord>)
    requires IsFalsy(laptop.id) && IsFalsy(phone.id)
    requires a !in t0 && b !in t0 && a != b
    requires CreateSpec(t0, t1, laptop, a, r1) && CreateSpec(t1, t2, phone, b, r2)
    requires FindAllSpec(t2, all)
    ensures r1 in all && r2 in all
    ensures r1.name == laptop.name && r2.name == phone.name
    ensures FindByIdSpec(t2, a, Some(r1)) && FindByIdSpec(t2, b, Some(r2))
    ensures |all| == |t0| + 2
  {
    CreateWithoutIdAddsOne(t0, t1, laptop, a, r1);
    CreateWithoutIdAddsOne(t1, t2, phone, b, r2);
    assert t2[a] == r1 && t2[b] == r2;
  }

  /** The ids carried by the products of `s`. */
  function IdsIn(s: seq<ProductRecord>): (r: set<Id>)
    ensures forall x :: x in s && x.id.Some? ==> x.id.value in r
    ensures |r| <= |s|
  {
    if s == [] then {}
    else (if s[0].id.Some? then {s[0].id.value} else {}) + IdsIn(s[1..])
  }

  /** A sequence that repeats a product carries fewer ids than it has elements. */
  lemma {:induction false} RepeatLosesAnId(s: seq<ProductRecord>, i: nat, j: nat)
    requires i < j < |s| && s[i] == s[j]
    ensures |IdsIn(s)| < |s|
  {
    if i == 0 {
      assert s[0] in s[1..] by { assert s[1..][j - 1] == s[j]; }
      assert IdsIn(s) == IdsIn(s[1..]);
    } else {
      RepeatLosesAnId(s[1..], i - 1, j - 1);
    }
  }

  /** For a table that keeps each product under its own id, `findAll` lists every stored
      product exactly once: no product appears twice. */
  lemma FindAllListsEachOnce(t: Table, r: seq<ProductRecord>)
    requires WellKeyed(t) && FindAllSpec(t, r)
    ensures forall i, j :: 0 <= i < j < |r| ==> r[i] != r[j]
  {
    assert t.Keys <= IdsIn(r) by {
      forall k | k in t
        ensures k in IdsIn(r)
      {
        assert t[k] in r && t[k].id == Some(k);
      }
    }
    assert |t.Keys| <= |IdsIn(r)| by { SubsetCardinality(t.Keys, IdsIn(r)); }
    forall i, j | 0 <= i < j < |r|
      ensures r[i] != r[j]
    {
      if r[i] == r[j] {
        RepeatLosesAnId(r, i, j);
        assert false;
      }
    }
  }

  lemma SubsetCardinality<T>(a: set<T>, b: set<T>)
    requires a <= b
    ensures |a| <= |b|
  {
    assert b == a + (b - a);
  }
}
