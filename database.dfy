/** The document store the handlers use: the three collections keyed by id, the
    unique indexes and validators the schemas impose on every write, and the
    Mongoose operations the handlers call (`Model.create`, `findByIdAndUpdate`
    with `runValidators: true`). Fresh ObjectIds come from a counter. */
module Database {
  import opened Base
  import U = UserModel
  import R = ReviewModel
  import P = ProductModel

  class Database {
    var users: map<Id, U.User>
    var products: map<Id, P.Product>
    var reviews: map<Id, R.Review>
    /** The next ObjectId the store hands out; every id in use is below it. */
    var next: Id

    /** Every document passes its schema's validators, the unique indexes hold,
        and no id, stored or listed, has been handed out yet. */
    ghost predicate Valid()
      reads this
    {
      U.UsersValid(users, next) && P.ProductsValid(products, next) && R.ReviewsValid(reviews, next)
    }

    constructor ()
      ensures Valid()
      ensures users == map[] && products == map[] && reviews == map[] && next == 0
    {
      users, products, reviews, next := map[], map[], map[], 0;
    }

    /** User.create: validation, then the pre-save hook, then the unique indexes. */
    method InsertUser(f: U.UserFields, now: int, env: Services) returns (r: Result<U.User>)
      requires Valid()
      modifies this
      ensures Valid()
      ensures var made := U.NewUser(old(next), f, now, env);
              && (made.None? ==> r == Err(Thrown(ValidationFailed)) && unchanged(this))
              && (made.Some? && U.ConflictsWith(old(users), made.value) ==>
                    r == Err(Thrown(DuplicateKey)) && unchanged(this))
              && (made.Some? && !U.ConflictsWith(old(users), made.value) ==>
                    && r == Ok(made.value) && users == old(users)[old(next) := made.value]
                    && next == old(next) + 1 && products == old(products) && reviews == old(reviews))
    {
      var made := U.NewUser(next, f, now, env);
      if made.None? {
        return Err(Thrown(ValidationFailed));
      }
      if U.ConflictsWith(users, made.value) {
        return Err(Thrown(DuplicateKey));
      }
      PutUser(made.value);
      r := Ok(made.value);
    }

    /** Review.create: validation and the pre-save hook, then the (product, user) index. */
    method InsertReview(f: R.ReviewFields, product: Id, user: Id, now: int, env: Services)
      returns (r: Result<R.Review>)
      requires Valid()
      modifies this
      ensures Valid()
      ensures var made := R.NewReview(old(next), f, product, user, now, env);
              && (made.None? ==> r == Err(Thrown(ValidationFailed)) && unchanged(this))
              && (made.Some? && R.ConflictsWith(old(reviews), made.value) ==>
                    r == Err(Thrown(DuplicateKey)) && unchanged(this))
              && (made.Some? && !R.ConflictsWith(old(reviews), made.value) ==>
                    && r == Ok(made.value) && reviews == old(reviews)[old(next) := made.value]
                    && next == old(next) + 1 && users == old(users) && products == old(products))
    {
      var made := R.NewReview(next, f, product, user, now, env);
      if made.None? {
        return Err(Thrown(ValidationFailed));
      }
      if R.ConflictsWith(reviews, made.value) {
        return Err(Thrown(DuplicateKey));
      }
      PutReview(made.value);
      r := Ok(made.value);
    }

    /** Product.create: validation and the pre-save hook, then the description index. */
    method InsertProduct(f: P.ProductFields, now: int, env: Services) returns (r: Result<P.Product>)
      requires Valid()
      modifies this
      ensures Valid()
      ensures var made := P.NewProduct(old(next), f, now, env);
              && (made.None? ==> r == Err(Thrown(ValidationFailed)) && unchanged(this))
              && (made.Some? && P.ConflictsWith(old(products), made.value) ==>
                    r == Err(Thrown(DuplicateKey)) && unchanged(this))
              && (made.Some? && !P.ConflictsWith(old(products), made.value) ==>
                    && r == Ok(made.value) && products == old(products)[old(next) := made.value]
                    && next == old(next) + 1 && users == old(users) && reviews == old(reviews))
    {
      var made := P.NewProduct(next, f, now, env);
      if made.None? {
        return Err(Thrown(ValidationFailed));
      }
      if P.ConflictsWith(products, made.value) {
        return Err(Thrown(DuplicateKey));
      }
      PutProduct(made.value);
      r := Ok(made.value);
    }

    /** Stores a new, valid user under the next id, which is then used up. */
    method PutUser(x: U.User)
      requires Valid() && x.id == next && U.StoredUserValid(x) && (forall id | id in x.reviews :: id < next + 1)
      requires !U.ConflictsWith(users, x)
      modifies this
      ensures Valid()
      ensures users == old(users)[old(next) := x] && next == old(next) + 1
      ensures products == old(products) && reviews == old(reviews)
    {
      U.UsersValidLater(users, next, next + 1);
      P.ProductsValidLater(products, next, next + 1);
      R.ReviewsValidLater(reviews, next, next + 1);
      U.WriteKeepsValid(users, next + 1, x);
      users := users[next := x];
      next := next + 1;
    }

    /** Stores a new, valid review under the next id, which is then used up. */
    method PutReview(x: R.Review)
      requires Valid() && x.id == next && R.StoredReviewValid(x)
      requires !R.ConflictsWith(reviews, x)
      modifies this
      ensures Valid()
      ensures reviews == old(reviews)[old(next) := x] && next == old(next) + 1
      ensures users == old(users) && products == old(products)
    {
      U.UsersValidLater(users, next, next + 1);
      P.ProductsValidLater(products, next, next + 1);
      R.ReviewsValidLater(reviews, next, next + 1);
      R.WriteKeepsValid(reviews, next + 1, x);
      reviews := reviews[next := x];
      next := next + 1;
    }

    /** Stores a new, valid product under the next id, which is then used up. */
    method PutProduct(x: P.Product)
      requires Valid() && x.id == next && P.StoredProductValid(x) && (forall id | id in x.reviews :: id < next + 1)
      requires !P.ConflictsWith(products, x)
      modifies this
      ensures Valid()
      ensures products == old(products)[old(next) := x] && next == old(next) + 1
      ensures users == old(users) && reviews == old(reviews)
    {
      U.UsersValidLater(users, next, next + 1);
      P.ProductsValidLater(products, next, next + 1);
      R.ReviewsValidLater(reviews, next, next + 1);
      P.WriteKeepsValid(products, next + 1, x);
      products := products[next := x];
      next := next + 1;
    }

    /** `user.save()` on a stored document whose validated and indexed fields
        are as stored: only fields such as the password, the slug and the reset
        fields were reassigned. */
    method SaveUser(u: U.User)
      requires Valid() && u.id in users
      requires var stored := users[u.id];
               && stored.name == u.name && stored.email == u.email && stored.phone == u.phone
               && stored.role == u.role && stored.reviews == u.reviews
      modifies this
      ensures Valid()
      ensures users == old(users)[u.id := u]
      ensures products == old(products) && reviews == old(reviews) && next == old(next)
    {
      U.RewriteKeepsValid(users, next, u);
      users := users[u.id := u];
    }

    /** User.findByIdAndUpdate(id, body, { runValidators: true, new: true }):
        the validators of the set fields run first, a missing document gives
        null, then the unique indexes are checked. */
    method UpdateUserById(id: Id, f: U.UserPatch) returns (r: Result<Option<U.User>>)
      requires Valid()
      modifies this
      ensures Valid()
      ensures !U.PatchFieldsValid(f) ==> r == Err(Thrown(ValidationFailed)) && unchanged(this)
      ensures U.PatchFieldsValid(f) && id !in old(users) ==> r == Ok(None) && unchanged(this)
      ensures U.PatchFieldsValid(f) && id in old(users) ==>
                var patched := U.ApplyUserPatch(old(users)[id], f).value;
                && (U.ConflictsWith(old(users), patched) ==> r == Err(Thrown(DuplicateKey)) && unchanged(this))
                && (!U.ConflictsWith(old(users), patched) ==>
                      && r == Ok(Some(patched)) && users == old(users)[id := patched]
                      && products == old(products) && reviews == old(reviews) && next == old(next))
    {
      if !U.PatchFieldsValid(f) {
        return Err(Thrown(ValidationFailed));
      }
      if id !in users {
        return Ok(None);
      }
      var patched := U.ApplyUserPatch(users[id], f).value;
      if U.ConflictsWith(users, patched) {
        return Err(Thrown(DuplicateKey));
      }
      U.WriteKeepsValid(users, next, patched);
      users := users[id := patched];
      r := Ok(Some(patched));
    }

    /** Review.findByIdAndUpdate(id, body, { runValidators: true, new: true }). */
    method UpdateReviewById(id: Id, p: R.ReviewPatch) returns (r: Result<Option<R.Review>>)
      requires Valid()
      modifies this
      ensures Valid()
      ensures !R.PatchValid(p) ==> r == Err(Thrown(ValidationFailed)) && unchanged(this)
      ensures R.PatchValid(p) && id !in old(reviews) ==> r == Ok(None) && unchanged(this)
      ensures R.PatchValid(p) && id in old(reviews) ==>
                var patched := R.ApplyReviewPatch(old(reviews)[id], p).value;
                && (R.ConflictsWith(old(reviews), patched) ==> r == Err(Thrown(DuplicateKey)) && unchanged(this))
                && (!R.ConflictsWith(old(reviews), patched) ==>
                      && r == Ok(Some(patched)) && reviews == old(reviews)[id := patched]
                      && users == old(users) && products == old(products) && next == old(next))
    {
      if !R.PatchValid(p) {
        return Err(Thrown(ValidationFailed));
      }
      if id !in reviews {
        return Ok(None);
      }
      var patched := R.ApplyReviewPatch(reviews[id], p).value;
      if R.ConflictsWith(reviews, patched) {
        return Err(Thrown(DuplicateKey));
      }
      R.WriteKeepsValid(reviews, next, patched);
      reviews := reviews[id := patched];
      r := Ok(Some(patched));
    }

    /** Product.findByIdAndUpdate(id, body, { runValidators: true, new: true }). */
    method UpdateProductById(id: Id, f: P.ProductFields) returns (r: Result<Option<P.Product>>)
      requires Valid()
      modifies this
      ensures Valid()
      ensures !P.PatchValid(f) ==> r == Err(Thrown(ValidationFailed)) && unchanged(this)
      ensures P.PatchValid(f) && id !in old(products) ==> r == Ok(None) && unchanged(this)
      ensures P.PatchValid(f) && id in old(products) ==>
                var patched := P.ApplyProductPatch(old(products)[id], f).value;
                && (P.ConflictsWith(old(products), patched) ==> r == Err(Thrown(DuplicateKey)) && unchanged(this))
                && (!P.ConflictsWith(old(products), patched) ==>
                      && r == Ok(Some(patched)) && products == old(products)[id := patched]
                      && users == old(users) && reviews == old(reviews) && next == old(next))
    {
      if !P.PatchValid(f) {
        return Err(Thrown(ValidationFailed));
      }
      if id !in products {
        return Ok(None);
      }
      var patched := P.ApplyProductPatch(products[id], f).value;
      if P.ConflictsWith(products, patched) {
        return Err(Thrown(DuplicateKey));
      }
      P.WriteKeepsValid(products, next, patched);
      products := products[id := patched];
      r := Ok(Some(patched));
    }
  }
}
