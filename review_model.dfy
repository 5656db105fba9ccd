/** The Review schema: its documents, the validators, the unique index on
    (product, user), the default photo and the pre-save hook that slugs the title. */
module ReviewModel {
  import opened Base
  import opened Text

  const MaxTitleLength := 100
  const MaxTextLength := 500
  const DefaultPhoto := "no-photo.jpg"

  datatype Review = Review(
    id: Id,
    title: string,
    slug: string,
    text: string,
    rating: Option<real>,
    photo: string,
    createdAt: int,
    user: Id,
    product: Id)

  /** The fields createReview takes from the request body. */
  datatype ReviewFields = ReviewFields(title: Option<string>, text: Option<string>, rating: Option<real>)

  /** The schema paths an update may set: updateReview passes the whole body on,
      so the author and product references, the slug and the creation time are
      among them. */
  datatype ReviewPatch = ReviewPatch(
    title: Option<string>,
    text: Option<string>,
    rating: Option<real>,
    photo: Option<string>,
    user: Option<Id>,
    product: Option<Id>,
    slug: Option<string>,
    createdAt: Option<int>)

  /** A stored `title` is non-empty and at most 100 characters. */
  predicate StoredTitleValid(title: string)
  {
    0 < |title| <= MaxTitleLength
  }

  /** A given `title` passes once the `trim` setter has trimmed it. */
  predicate TitleValid(title: string)
  {
    StoredTitleValid(Trim(title))
  }

  /** A stored `text` is non-empty and at most 500 characters. */
  predicate StoredTextValid(text: string)
  {
    0 < |text| <= MaxTextLength
  }

  /** A given `text` passes once the `trim` setter has trimmed it. */
  predicate TextValid(text: string)
  {
    StoredTextValid(Trim(text))
  }

  /** `rating` is optional; when present it lies in [1, 5]. */
  predicate RatingValid(rating: Option<real>)
  {
    rating.Some? ==> 1.0 <= rating.value <= 5.0
  }

  /** A stored review passes the validators: its strings are stored trimmed,
      so the validators see them as they are. */
  predicate StoredReviewValid(r: Review)
  {
    StoredTitleValid(r.title) && StoredTextValid(r.text) && RatingValid(r.rating)
  }

  predicate CreateFieldsValid(f: ReviewFields)
  {
    f.title.Some? && TitleValid(f.title.value) && f.text.Some? && TextValid(f.text.value)
    && RatingValid(f.rating)
  }

  /** Review.create with the given product and author: validation, the default
      photo, then the pre-save hook (slug = slugify of the trimmed title). */
  function NewReview(id: Id, f: ReviewFields, product: Id, user: Id, now: int, env: Services): (r: Option<Review>)
    ensures r.Some? <==> CreateFieldsValid(f)
    ensures r.Some? ==> && StoredReviewValid(r.value) && r.value.id == id
                        && r.value.product == product && r.value.user == user
                        && r.value.title == Trim(f.title.value) && r.value.text == Trim(f.text.value)
                        && r.value.rating == f.rating && r.value.photo == DefaultPhoto
                        && r.value.slug == env.slugify(r.value.title) && r.value.createdAt == now
  {
    if !CreateFieldsValid(f) then None
    else
      Some(PreSave(Review(id, Trim(f.title.value), "", Trim(f.text.value), f.rating, DefaultPhoto,
                          now, user, product), env))
  }

  /** The pre-save hook: only the slug changes, to slugify(title). */
  function PreSave(r: Review, env: Services): (s: Review)
    ensures s.slug == env.slugify(r.title) && s.(slug := r.slug) == r
  {
    r.(slug := env.slugify(r.title))
  }

  predicate PatchValid(p: ReviewPatch)
  {
    && (p.title.Some? ==> TitleValid(p.title.value))
    && (p.text.Some? ==> TextValid(p.text.value))
    && RatingValid(p.rating)
  }

  /** findByIdAndUpdate with runValidators: the set fields are validated and
      written; the pre-save hook does not run, so a new title leaves the slug as
      it was unless the body sets the slug itself. */
  function ApplyReviewPatch(r: Review, p: ReviewPatch): (s: Option<Review>)
    ensures s.Some? <==> PatchValid(p)
    ensures s.Some? ==> && s.value.id == r.id
                        && s.value.slug == (if p.slug.Some? then p.slug.value else r.slug)
                        && s.value.createdAt == (if p.createdAt.Some? then p.createdAt.value else r.createdAt)
                        && s.value.title == (if p.title.Some? then Trim(p.title.value) else r.title)
                        && s.value.text == (if p.text.Some? then Trim(p.text.value) else r.text)
                        && s.value.rating == (if p.rating.Some? then p.rating else r.rating)
                        && s.value.photo == (if p.photo.Some? then p.photo.value else r.photo)
                        && s.value.user == (if p.user.Some? then p.user.value else r.user)
                        && s.value.product == (if p.product.Some? then p.product.value else r.product)
    ensures s.Some? && StoredReviewValid(r) ==> StoredReviewValid(s.value)
  {
    if !PatchValid(p) then None
    else
      Some(r.(title := if p.title.Some? then Trim(p.title.value) else r.title,
              text := if p.text.Some? then Trim(p.text.value) else r.text,
              rating := if p.rating.Some? then p.rating else r.rating,
              photo := if p.photo.Some? then p.photo.value else r.photo,
              user := if p.user.Some? then p.user.value else r.user,
              product := if p.product.Some? then p.product.value else r.product,
              slug := if p.slug.Some? then p.slug.value else r.slug,
              createdAt := if p.createdAt.Some? then p.createdAt.value else r.createdAt))
  }

  /** Two reviews the (product, user) unique index cannot hold together. */
  predicate Collide(a: Review, b: Review)
  {
    a.product == b.product && a.user == b.user
  }

  predicate ConflictsWith(reviews: map<Id, Review>, r: Review)
  {
    exists id | id in reviews :: id != r.id && Collide(reviews[id], r)
  }

  /** The reviews collection as the store holds it. */
  ghost predicate ReviewsValid(reviews: map<Id, Review>, next: Id)
  {
    && (forall id | id in reviews :: reviews[id].id == id && id < next && StoredReviewValid(reviews[id]))
    && (forall a, b | a in reviews && b in reviews && a != b :: !Collide(reviews[a], reviews[b]))
  }

  /** The unique index: at most one review per (product, user) pair. */
  lemma OneReviewPerPair(reviews: map<Id, Review>, next: Id, a: Id, b: Id)
    requires ReviewsValid(reviews, next)
    requires a in reviews && b in reviews
    requires reviews[a].product == reviews[b].product && reviews[a].user == reviews[b].user
    ensures a == b
  {
  }

  /** Handing out more ids keeps the collection valid. */
  lemma ReviewsValidLater(reviews: map<Id, Review>, next: Id, later: Id)
    requires ReviewsValid(reviews, next) && next <= later
    ensures ReviewsValid(reviews, later)
  {
  }

  /** Deleting a review keeps the collection valid. */
  lemma RemoveKeepsValid(reviews: map<Id, Review>, next: Id, id: Id)
    requires ReviewsValid(reviews, next)
    ensures ReviewsValid(reviews - {id}, next)
  {
  }

  lemma WriteKeepsValid(reviews: map<Id, Review>, next: Id, r: Review)
    requires ReviewsValid(reviews, next)
    requires StoredReviewValid(r) && r.id < next
    requires !ConflictsWith(reviews, r)
    ensures ReviewsValid(reviews[r.id := r], next)
  {
    var m := reviews[r.id := r];
    forall a, b | a in m && b in m && a != b
      ensures !Collide(m[a], m[b])
    {
      if a == r.id {
        assert !Collide(reviews[b], r);
      } else if b == r.id {
        assert !Collide(reviews[a], r);
      }
    }
  }
}
