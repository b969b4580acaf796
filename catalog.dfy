/** The product table that the cart reads (price, stock) and the review
    upsert writes (average rating, review count). */
module Catalog {
  import opened Common

  datatype Product = Product(
    id: Id,
    name: string,
    slug: string,
    stock: int,
    rating: real,
    numReviews: nat)

  class ProductStore {
    /** Rows keyed by their primary key. */
    var rows: map<Id, Product>

    ghost predicate Valid()
      reads this
    {
      forall id :: id in rows ==> rows[id].id == id
    }

    constructor (initial: map<Id, Product>)
      requires forall id :: id in initial ==> initial[id].id == id
      ensures Valid() && rows == initial
    {
      rows := initial;
    }

    /** `tx.product.update` of the two review aggregates of one product. */
    method SetReviewAggregate(id: Id, rating: real, numReviews: nat)
      requires Valid() && id in rows
      modifies this
      ensures Valid()
      ensures rows == old(rows)[id := old(rows)[id].(rating := rating, numReviews := numReviews)]
    {
      rows := rows[id := rows[id].(rating := rating, numReviews := numReviews)];
    }
  }
}
