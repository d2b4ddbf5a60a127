/**
 * The Product entity (src/domain/entities/Product.js): a record whose constructor fills in
 * missing timestamps and whose `update` overwrites exactly the fields a partial update
 * supplies, always refreshing `updatedAt`.
 *
 * The JavaScript object is the class `Product`; the value it holds at any moment is a
 * `ProductRecord`, which is what the repositories store and return. `Merge` is the effect
 * of `update` on that value.
 */
module ProductEntity {
  import opened Wrappers

  /** Product identifiers are strings (a UUID when the store generates one). */
  type Id = string

  /** A `Date`, as its millisecond time value; the model only copies and compares them. */
  type Time = int

  /** A JavaScript number; prices are only stored and copied, never computed with. */
  type Price = real

  /** The fields of a Product object at one moment. `id` is `None` for `null`/`undefined`. */
  datatype ProductRecord = ProductRecord(
    id: Option<Id>,
    name: string,
    price: Price,
    description: string,
    createdAt: Time,
    updatedAt: Time)

  /** The argument of `update`: `None` is a property that is `undefined` (or absent). */
  datatype UpdateData = UpdateData(
    name: Option<string>,
    price: Option<Price>,
    description: Option<string>)

  /** An update that supplies no field. */
  const NoChanges := UpdateData(None, None, None)

  /** `x || new Date()` for a timestamp argument: every `Date` object is truthy. */
  function OrNow(t: Option<Time>, now: Time): (r: Time)
    ensures t.Some? ==> r == t.value
    ensures t.None? ==> r == now
  {
    if t.Some? then t.value else now
  }

  /** The record `new Product(id, name, price, description, createdAt, updatedAt)` holds
      when the clock reads `now`. */
  function NewRecord(id: Option<Id>, name: string, price: Price, description: string,
                     createdAt: Option<Time>, updatedAt: Option<Time>, now: Time): (r: ProductRecord)
    ensures r.id == id && r.name == name && r.price == price && r.description == description
    ensures createdAt.Some? ==> r.createdAt == createdAt.value
    ensures createdAt.None? ==> r.createdAt == now
    ensures updatedAt.Some? ==> r.updatedAt == updatedAt.value
    ensures updatedAt.None? ==> r.updatedAt == now
  {
    ProductRecord(id, name, price, description, OrNow(createdAt, now), OrNow(updatedAt, now))
  }

  /** The record after `update(data)` at time `now`: each data field supplied replaces the
      stored one, identity and creation time stay, `updatedAt` is the clock. */
  function Merge(p: ProductRecord, data: UpdateData, now: Time): (r: ProductRecord)
    ensures r.id == p.id && r.createdAt == p.createdAt && r.updatedAt == now
    ensures r.name == (if data.name.Some? then data.name.value else p.name)
    ensures r.price == (if data.price.Some? then data.price.value else p.price)
    ensures r.description == (if data.description.Some? then data.description.value else p.description)
  {
    p.(name := if data.name.Some? then data.name.value else p.name,
       price := if data.price.Some? then data.price.value else p.price,
       description := if data.description.Some? then data.description.value else p.description,
       updatedAt := now)
  }

  /** The update that has the effect of applying `first` and then `second`: a field
      supplied by `second` wins, otherwise the one supplied by `first`. */
  function Then(first: UpdateData, second: UpdateData): UpdateData {
    UpdateData(
      if second.name.Some? then second.name else first.name,
      if second.price.Some? then second.price else first.price,
      if second.description.Some? then second.description else first.description)
  }

  class Product {
    var id: Option<Id>
    var name: string
    var price: Price
    var description: string
    var createdAt: Time
    var updatedAt: Time

    /** The value this object currently holds. */
    function Record(): ProductRecord
      reads this
    {
      ProductRecord(id, name, price, description, createdAt, updatedAt)
    }

    /** Stores the four data fields as passed; a missing timestamp becomes `now`. */
    constructor (id: Option<Id>, name: string, price: Price, description: string,
                 createdAt: Option<Time>, updatedAt: Option<Time>, now: Time)
      ensures this.id == id && this.name == name
      ensures this.price == price && this.description == description
      ensures createdAt.Some? ==> this.createdAt == createdAt.value
      ensures createdAt.None? ==> this.createdAt == now
      ensures updatedAt.Some? ==> this.updatedAt == updatedAt.value
      ensures updatedAt.None? ==> this.updatedAt == now
      ensures Record() == NewRecord(id, name, price, description, createdAt, updatedAt, now)
    {
      this.id := id;
      this.name := name;
      this.price := price;
      this.description := description;
      this.createdAt := OrNow(createdAt, now);
      this.updatedAt := OrNow(updatedAt, now);
    }

    /** Overwrites each field `data` supplies, keeps the others, never touches `id` or
        `createdAt`, and sets `updatedAt` to `now` even when nothing is supplied. */
    method Update(data: UpdateData, now: Time)
      modifies this
      ensures name == (if data.name.Some? then data.name.value else old(name))
      ensures price == (if data.price.Some? then data.price.value else old(price))
      ensures description == (if data.description.Some? then data.description.value else old(description))
      ensures id == old(id) && createdAt == old(createdAt)
      ensures updatedAt == now
      ensures Record() == Merge(old(Record()), data, now)
    {
      if data.name.Some? { name := data.name.value; }
      if data.price.Some? { price := data.price.value; }
      if data.description.Some? { description := data.description.value; }
      updatedAt := now;
    }
  }

  /** An update that supplies nothing still refreshes `updatedAt`, and changes nothing else. */
  lemma EmptyUpdateOnlyRefreshes(p: ProductRecord, now: Time)
    ensures Merge(p, NoChanges, now) == p.(updatedAt := now)
  {
  }

  /** Two updates in a row are one update with the fields of both, the later winning. */
  lemma MergeComposes(p: ProductRecord, first: UpdateData, t1: Time, second: UpdateData, t2: Time)
    ensures Merge(Merge(p, first, t1), second, t2) == Merge(p, Then(first, second), t2)
  {
  }

  /** Repeating an update at the same instant changes nothing further. */
  lemma MergeIdempotent(p: ProductRecord, data: UpdateData, now: Time)
    ensures Merge(Merge(p, data, now), data, now) == Merge(p, data, now)
  {
    MergeComposes(p, data, now, data, now);
    assert Then(data, data) == data;
  }

  /** Updating `{price: 10}` on `{name: "X", price: 5, description: "d"}` yields
      `{name: "X", price: 10, description: "d"}`; `updatedAt` grows exactly when the clock
      has moved past it. */
  lemma PriceOnlyUpdateExample(id: Option<Id>, created: Time, updated: Time, now: Time)
    ensures var p := ProductRecord(id, "X", 5.0, "d", created, updated);
            var r := Merge(p, UpdateData(None, Some(10.0), None), now);
            r.name == "X" && r.price == 10.0 && r.description == "d" &&
            r.id == id && r.createdAt == created &&
            (r.updatedAt > updated <==> now > updated)
  {
  }
}
