/** The review handlers: listing a product's reviews, creating, updating and
    deleting a review. createReview and deleteReview read `user.reviews` and
    `product.reviews`, which neither schema declares; as written they throw at
    that point. `CreateReviewDeclared` and `DeleteReviewDeclared` are the same
    handlers for schemas that declare both lists: they record the new id on the
    author and on the product, and filter it out of both before a delete. */
module ReviewController {
  import opened Base
  import opened Lists
  import U = UserModel
  import R = ReviewModel
  import P = ProductModel
  import opened Database

  const OwnerOnlyUpdate := "User not authorized to update reviews other than his"
  const OwnerOnlyDelete := "User not authorized to delete reviews other than his"

  /** What getReviews answers: a product's reviews with their number, or the
      paginated listing of all reviews, which another middleware prepares. */
  datatype Listing = ByProduct(count: nat, data: map<Id, R.Review>) | AdvancedResults

  /** getReviews: with a product id, exactly the reviews of that product and
      their number; without one, the prepared listing. */
  function GetReviews(db: Database, productId: Option<Id>): (r: Listing)
    reads db
    ensures productId.None? <==> r.AdvancedResults?
    ensures r.ByProduct? ==>
              && (forall id :: id in r.data <==> id in db.reviews && db.reviews[id].product == productId.value)
              && (forall id | id in r.data :: r.data[id] == db.reviews[id])
              && r.count == |r.data|
  {
    if productId.None? then AdvancedResults
    else
      var found := map id | id in db.reviews && db.reviews[id].product == productId.value :: db.reviews[id];
      ByProduct(|found|, found)
  }

  /** getReview: the review with the id, else 404. */
  function GetReview(db: Database, id: Id): (r: Result<R.Review>)
    reads db
    ensures r.Ok? <==> id in db.reviews
    ensures r.Ok? ==> r.value == db.reviews[id]
    ensures r.Err? ==> r.failure == Reply(404, "Review not found of id " + IdText(id))
  {
    if id in db.reviews then Ok(db.reviews[id]) else Err(Reply(404, "Review not found of id " + IdText(id)))
  }

  /** The ownership check of updateReview and deleteReview: the author, or any admin. */
  predicate MayChange(review: R.Review, caller: U.User)
  {
    review.user == caller.id || caller.role == "admin"
  }

  /** The two read-modify-write steps of createReview: the new id goes at the
      end of the author's list, then at the end of the product's list. */
  method PushReviewId(db: Database, cid: Id, productId: Id, rid: Id)
    requires db.Valid() && cid in db.users && productId in db.products && rid < db.next
    modifies db
    ensures db.Valid()
    ensures db.users == old(db.users)[cid := old(db.users)[cid].(reviews := old(db.users)[cid].reviews + [rid])]
    ensures db.products == old(db.products)[productId :=
              old(db.products)[productId].(reviews := old(db.products)[productId].reviews + [rid])]
    ensures db.reviews == old(db.reviews) && db.next == old(db.next)
  {
    var user := db.users[cid];
    U.ReviewListKeepsValid(db.users, db.next, cid, user.reviews + [rid]);
    db.users := db.users[cid := user.(reviews := user.reviews + [rid])];
    var product := db.products[productId];
    P.ReviewListKeepsValid(db.products, db.next, productId, product.reviews + [rid]);
    db.products := db.products[productId := product.(reviews := product.reviews + [rid])];
  }

  /** createReview as written: the product must exist (404); the review is
      created with the route's product and the caller as author. Then the
      handler pushes onto `user.reviews`, which is not a schema path and so
      reads as undefined (as does any property of a user who no longer exists):
      every created review ends in a TypeError, with the review stored and
      neither list touched. */
  method CreateReview(db: Database, env: Services, caller: Option<U.User>, productId: Id,
                      body: R.ReviewFields, now: int) returns (r: Result<R.Review>)
    requires db.Valid()
    modifies db
    ensures db.Valid()
    ensures r.Err?
    ensures db.users == old(db.users) && db.products == old(db.products)
    ensures productId !in old(db.products) ==>
              r == Err(Reply(404, "Product with " + IdText(productId) + " not exists")) && unchanged(db)
    ensures productId in old(db.products) && caller.None? ==> r == Err(Thrown(TypeError)) && unchanged(db)
    ensures productId in old(db.products) && caller.Some? ==>
              var made := R.NewReview(old(db.next), body, productId, caller.value.id, now, env);
              && (made.None? ==> r == Err(Thrown(ValidationFailed)) && unchanged(db))
              && (made.Some? && R.ConflictsWith(old(db.reviews), made.value) ==>
                    r == Err(Thrown(DuplicateKey)) && unchanged(db))
              && (made.Some? && !R.ConflictsWith(old(db.reviews), made.value) ==>
                    && r == Err(Thrown(TypeError))
                    && db.reviews == old(db.reviews)[old(db.next) := made.value]
                    && db.next == old(db.next) + 1)
  {
    if productId !in db.products {
      return Err(Reply(404, "Product with " + IdText(productId) + " not exists"));
    }
    if caller.None? {
      return Err(Thrown(TypeError));
    }
    var created := db.InsertReview(body, productId, caller.value.id, now, env);
    if created.Err? {
      return created;
    }
    r := Err(Thrown(TypeError));
  }

  /** createReview for schemas that declare `reviews`: the product must exist
      (404); the review is created with the route's product and the caller as
      author; then its id is pushed onto the author's list and onto the
      product's list, in that order. A failing create changes nothing; an
      author who no longer exists makes the handler throw after the review was
      created and before either list changes. */
  method CreateReviewDeclared(db: Database, env: Services, caller: Option<U.User>, productId: Id,
                      body: R.ReviewFields, now: int) returns (r: Result<R.Review>)
    requires db.Valid()
    modifies db
    ensures db.Valid()
    ensures productId !in old(db.products) ==>
              r == Err(Reply(404, "Product with " + IdText(productId) + " not exists")) && unchanged(db)
    ensures productId in old(db.products) && caller.None? ==> r == Err(Thrown(TypeError)) && unchanged(db)
    ensures productId in old(db.products) && caller.Some? ==>
              var made := R.NewReview(old(db.next), body, productId, caller.value.id, now, env);
              && (made.None? ==> r == Err(Thrown(ValidationFailed)) && unchanged(db))
              && (made.Some? && R.ConflictsWith(old(db.reviews), made.value) ==>
                    r == Err(Thrown(DuplicateKey)) && unchanged(db))
              && (made.Some? && !R.ConflictsWith(old(db.reviews), made.value) ==>
                    && db.reviews == old(db.reviews)[old(db.next) := made.value]
                    && db.next == old(db.next) + 1
                    && (caller.value.id !in old(db.users) ==>
                          r == Err(Thrown(TypeError)) && db.users == old(db.users) && db.products == old(db.products))
                    && (caller.value.id in old(db.users) ==> r == Ok(made.value)))
    ensures r.Ok? ==> && caller.Some? && r.value.product == productId && r.value.user == caller.value.id
                      && r.value.id !in old(db.reviews) && db.reviews[r.value.id] == r.value
    ensures r.Ok? ==>
              var cid := caller.value.id;
              && cid in old(db.users) && productId in old(db.products)
              && r.value.id !in old(db.users)[cid].reviews
              && r.value.id !in old(db.products)[productId].reviews
              && db.users == old(db.users)[cid := old(db.users)[cid].(reviews := old(db.users)[cid].reviews + [r.value.id])]
              && db.products == old(db.products)[productId :=
                   old(db.products)[productId].(reviews := old(db.products)[productId].reviews + [r.value.id])]
  {
    if productId !in db.products {
      return Err(Reply(404, "Product with " + IdText(productId) + " not exists"));
    }
    if caller.None? {
      return Err(Thrown(TypeError));
    }
    var cid := caller.value.id;
    var created := db.InsertReview(body, productId, cid, now, env);
    if created.Err? {
      return created;
    }
    var review := created.value;
    if cid !in db.users {
      return Err(Thrown(TypeError));
    }
    PushReviewId(db, cid, productId, review.id);
    r := Ok(review);
  }

  /** updateReview: a missing review is 404, then the caller's role is read
      (throwing without a principal), then anyone but the author or an admin
      gets 401; otherwise the whole body goes to findByIdAndUpdate, which may
      also move the review to another author or product. */
  method UpdateReview(db: Database, caller: Option<U.User>, id: Id, patch: R.ReviewPatch)
    returns (r: Result<R.Review>)
    requires db.Valid()
    modifies db
    ensures db.Valid()
    ensures id !in old(db.reviews) ==> r == Err(Reply(404, "Review not found of id " + IdText(id))) && unchanged(db)
    ensures id in old(db.reviews) && caller.None? ==> r == Err(Thrown(TypeError)) && unchanged(db)
    ensures id in old(db.reviews) && caller.Some? && !MayChange(old(db.reviews)[id], caller.value) ==>
              r == Err(Reply(401, OwnerOnlyUpdate)) && unchanged(db)
    ensures id in old(db.reviews) && caller.Some? && MayChange(old(db.reviews)[id], caller.value) ==>
              && (!R.PatchValid(patch) ==> r == Err(Thrown(ValidationFailed)) && unchanged(db))
              && (R.PatchValid(patch) ==>
                    var patched := R.ApplyReviewPatch(old(db.reviews)[id], patch).value;
                    && (R.ConflictsWith(old(db.reviews), patched) ==> r == Err(Thrown(DuplicateKey)) && unchanged(db))
                    && (!R.ConflictsWith(old(db.reviews), patched) ==>
                          && r == Ok(patched) && db.reviews == old(db.reviews)[id := patched]
                          && db.users == old(db.users) && db.products == old(db.products)
                          && db.next == old(db.next)))
  {
    if id !in db.reviews {
      return Err(Reply(404, "Review not found of id " + IdText(id)));
    }
    if caller.None? {
      return Err(Thrown(TypeError));
    }
    if !MayChange(db.reviews[id], caller.value) {
      return Err(Reply(401, OwnerOnlyUpdate));
    }
    var updated := db.UpdateReviewById(id, patch);
    match updated
    case Err(f) => r := Err(f);
    case Ok(Some(review)) => r := Ok(review);
    case Ok(None) => assert false;
  }

  /** The product half of deleteReview: the product's list with the id filtered out. */
  method PullFromProduct(db: Database, productId: Id, rid: Id)
    requires db.Valid() && productId in db.products
    modifies db
    ensures db.Valid()
    ensures db.products == old(db.products)[productId :=
              old(db.products)[productId].(reviews := Without(old(db.products)[productId].reviews, rid))]
    ensures db.users == old(db.users) && db.reviews == old(db.reviews) && db.next == old(db.next)
  {
    var product := db.products[productId];
    P.ReviewListKeepsValid(db.products, db.next, productId, Without(product.reviews, rid));
    db.products := db.products[productId := product.(reviews := Without(product.reviews, rid))];
  }

  /** The author half of deleteReview: the author's list with the id filtered out. */
  method PullFromUser(db: Database, uid: Id, rid: Id)
    requires db.Valid() && uid in db.users
    modifies db
    ensures db.Valid()
    ensures db.users == old(db.users)[uid := old(db.users)[uid].(reviews := Without(old(db.users)[uid].reviews, rid))]
    ensures db.products == old(db.products) && db.reviews == old(db.reviews) && db.next == old(db.next)
  {
    var user := db.users[uid];
    U.ReviewListKeepsValid(db.users, db.next, uid, Without(user.reviews, rid));
    db.users := db.users[uid := user.(reviews := Without(user.reviews, rid))];
  }

  /** deleteReview as written: 404, then the ownership check as in
      updateReview; then the handler filters `product.reviews`, which is not a
      schema path and so reads as undefined (as does any property of a missing
      product): it throws a TypeError before anything is deleted, so no review
      is ever removed. */
  method DeleteReview(db: Database, caller: Option<U.User>, id: Id) returns (r: Result<()>)
    requires db.Valid()
    ensures r.Err?
    ensures id !in db.reviews ==> r == Err(Reply(404, "Review with id " + IdText(id) + " not found"))
    ensures id in db.reviews && caller.None? ==> r == Err(Thrown(TypeError))
    ensures id in db.reviews && caller.Some? && !MayChange(db.reviews[id], caller.value) ==>
              r == Err(Reply(401, OwnerOnlyDelete))
    ensures id in db.reviews && caller.Some? && MayChange(db.reviews[id], caller.value) ==>
              r == Err(Thrown(TypeError))
  {
    if id !in db.reviews {
      return Err(Reply(404, "Review with id " + IdText(id) + " not found"));
    }
    if caller.None? {
      return Err(Thrown(TypeError));
    }
    if !MayChange(db.reviews[id], caller.value) {
      return Err(Reply(401, OwnerOnlyDelete));
    }
    r := Err(Thrown(TypeError));
  }

  /** deleteReview for schemas that declare `reviews`: 404, then the ownership
      check as in updateReview; then the id is filtered out of the product's
      list, then out of the author's list, then the review is deleted. A
      product or author that no longer exists makes the handler throw at that
      step, leaving the earlier steps done. */
  method DeleteReviewDeclared(db: Database, caller: Option<U.User>, id: Id) returns (r: Result<()>)
    requires db.Valid()
    modifies db
    ensures db.Valid()
    ensures id !in old(db.reviews) ==> r == Err(Reply(404, "Review with id " + IdText(id) + " not found")) && unchanged(db)
    ensures id in old(db.reviews) && caller.None? ==> r == Err(Thrown(TypeError)) && unchanged(db)
    ensures id in old(db.reviews) && caller.Some? && !MayChange(old(db.reviews)[id], caller.value) ==>
              r == Err(Reply(401, OwnerOnlyDelete)) && unchanged(db)
    ensures id in old(db.reviews) && caller.Some? && MayChange(old(db.reviews)[id], caller.value) ==>
              var pid := old(db.reviews)[id].product;
              var uid := old(db.reviews)[id].user;
              && db.next == old(db.next)
              && (pid !in old(db.products) ==> r == Err(Thrown(TypeError)) && unchanged(db))
              && (pid in old(db.products) ==>
                    && db.products == old(db.products)[pid :=
                         old(db.products)[pid].(reviews := Without(old(db.products)[pid].reviews, id))]
                    && (uid !in old(db.users) ==>
                          r == Err(Thrown(TypeError)) && db.users == old(db.users) && db.reviews == old(db.reviews))
                    && (uid in old(db.users) ==>
                          && r == Ok(())
                          && db.users == old(db.users)[uid := old(db.users)[uid].(reviews := Without(old(db.users)[uid].reviews, id))]
                          && db.reviews == old(db.reviews) - {id}))
  {
    if id !in db.reviews {
      return Err(Reply(404, "Review with id " + IdText(id) + " not found"));
    }
    if caller.None? {
      return Err(Thrown(TypeError));
    }
    var review := db.reviews[id];
    if !MayChange(review, caller.value) {
      return Err(Reply(401, OwnerOnlyDelete));
    }
    if review.product !in db.products {
      return Err(Thrown(TypeError));
    }
    PullFromProduct(db, review.product, id);
    if review.user !in db.users {
      return Err(Thrown(TypeError));
    }
    PullFromUser(db, review.user, id);
    R.RemoveKeepsValid(db.reviews, db.next, id);
    db.reviews := db.reviews - {id};
    r := Ok(());
  }
}
