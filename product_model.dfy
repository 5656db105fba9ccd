/** The Product schema: its documents, the validators, the unique index on
    `description`, the default photo and the pre-save hook that slugs the title. */
module ProductModel {
  import opened Base
  import opened Text

  const MaxTitleLength := 50
  const MaxTypeLength := 50
  const MaxDescriptionLength := 500
  const MaxSellerLength := 50
  const DefaultPhoto := "no-photo.jpg"

  /** A stored product. `sellerName` is the schema's `Seller` string. `reviews`
      is the back-reference list that the review handlers expect on a product.
      The schema does not declare it, so the handlers as written can neither
      read nor write it and it stays empty; only the corrected handlers, written
      for a schema that declares it, fill it. */
  datatype Product = Product(
    id: Id,
    title: string,
    slug: string,
    productType: string,
    description: string,
    averageRating: Option<real>,
    photo: string,
    createdAt: int,
    cost: Option<real>,
    sellerName: string,
    reviews: seq<Id>)

  /** A request body for a create or an update: createProduct and updateProduct
      pass the whole body on, so every schema path may be set. `sellerName` is
      the `Seller` key; `seller` is the lower-case key createProduct stamps,
      which the schema does not declare and so never reaches the document. */
  datatype ProductFields = ProductFields(
    title: Option<string>,
    productType: Option<string>,
    description: Option<string>,
    averageRating: Option<real>,
    photo: Option<string>,
    cost: Option<real>,
    sellerName: Option<string>,
    seller: Option<Id>,
    slug: Option<string>,
    createdAt: Option<int>)

  /** A required string field with a maximum length, as a stored value. */
  predicate Within(s: string, max: nat)
  {
    0 < |s| <= max
  }

  /** The same validator on a given value, which the `trim` setter trims first. */
  predicate TrimmedWithin(s: string, max: nat)
  {
    Within(Trim(s), max)
  }

  predicate RatingValid(rating: Option<real>)
  {
    rating.Some? ==> 1.0 <= rating.value <= 5.0
  }

  /** A stored product passes the validators: its strings are stored trimmed,
      so the validators see them as they are. */
  predicate StoredProductValid(p: Product)
  {
    && Within(p.title, MaxTitleLength)
    && Within(p.productType, MaxTypeLength)
    && Within(p.description, MaxDescriptionLength)
    && RatingValid(p.averageRating)
    && Within(p.sellerName, MaxSellerLength)
  }

  predicate CreateFieldsValid(f: ProductFields)
  {
    && f.title.Some? && TrimmedWithin(f.title.value, MaxTitleLength)
    && f.productType.Some? && TrimmedWithin(f.productType.value, MaxTypeLength)
    && f.description.Some? && TrimmedWithin(f.description.value, MaxDescriptionLength)
    && RatingValid(f.averageRating)
    && f.sellerName.Some? && TrimmedWithin(f.sellerName.value, MaxSellerLength)
  }

  /** Product.create on a body: validation, the defaults (photo, and the
      creation time unless the body gives one) and the pre-save hook, which
      overwrites any slug in the body with slugify of the trimmed title. A new
      product lists no reviews. */
  function NewProduct(id: Id, f: ProductFields, now: int, env: Services): (r: Option<Product>)
    ensures r.Some? <==> CreateFieldsValid(f)
    ensures r.Some? ==> && StoredProductValid(r.value) && r.value.id == id
                        && r.value.title == Trim(f.title.value)
                        && r.value.productType == Trim(f.productType.value)
                        && r.value.description == Trim(f.description.value)
                        && r.value.sellerName == Trim(f.sellerName.value)
                        && r.value.averageRating == f.averageRating && r.value.cost == f.cost
                        && r.value.photo == (if f.photo.Some? then f.photo.value else DefaultPhoto)
                        && r.value.slug == env.slugify(r.value.title)
                        && r.value.reviews == []
                        && r.value.createdAt == (if f.createdAt.Some? then f.createdAt.value else now)
  {
    if !CreateFieldsValid(f) then None
    else
      var photo := if f.photo.Some? then f.photo.value else DefaultPhoto;
      Some(PreSave(Product(id, Trim(f.title.value), "", Trim(f.productType.value),
                           Trim(f.description.value), f.averageRating, photo,
                           if f.createdAt.Some? then f.createdAt.value else now, f.cost,
                           Trim(f.sellerName.value), []), env))
  }

  /** The lower-case `seller` key has no effect on the created document. */
  lemma SellerKeyIgnored(id: Id, f: ProductFields, now: int, env: Services, seller: Option<Id>)
    ensures NewProduct(id, f, now, env) == NewProduct(id, f.(seller := seller), now, env)
  {
  }

  /** A slug in the body has no effect on the created product: the hook recomputes it. */
  lemma BodySlugOverwritten(id: Id, f: ProductFields, now: int, env: Services, slug: Option<string>)
    ensures NewProduct(id, f, now, env) == NewProduct(id, f.(slug := slug), now, env)
  {
  }

  /** The pre-save hook: only the slug changes, to slugify(title). */
  function PreSave(p: Product, env: Services): (r: Product)
    ensures r.slug == env.slugify(p.title) && r.(slug := p.slug) == p
  {
    p.(slug := env.slugify(p.title))
  }

  predicate PatchValid(f: ProductFields)
  {
    && (f.title.Some? ==> TrimmedWithin(f.title.value, MaxTitleLength))
    && (f.productType.Some? ==> TrimmedWithin(f.productType.value, MaxTypeLength))
    && (f.description.Some? ==> TrimmedWithin(f.description.value, MaxDescriptionLength))
    && RatingValid(f.averageRating)
    && (f.sellerName.Some? ==> TrimmedWithin(f.sellerName.value, MaxSellerLength))
  }

  /** findByIdAndUpdate with runValidators: the set fields are validated and
      written; no pre-save hook runs, so a new title leaves the slug as it was
      unless the body sets the slug itself. */
  function ApplyProductPatch(p: Product, f: ProductFields): (r: Option<Product>)
    ensures r.Some? <==> PatchValid(f)
    ensures r.Some? ==> && r.value.id == p.id && r.value.reviews == p.reviews
                        && r.value.slug == (if f.slug.Some? then f.slug.value else p.slug)
                        && r.value.createdAt == (if f.createdAt.Some? then f.createdAt.value else p.createdAt)
                        && r.value.title == (if f.title.Some? then Trim(f.title.value) else p.title)
                        && r.value.productType == (if f.productType.Some? then Trim(f.productType.value) else p.productType)
                        && r.value.description == (if f.description.Some? then Trim(f.description.value) else p.description)
                        && r.value.averageRating == (if f.averageRating.Some? then f.averageRating else p.averageRating)
                        && r.value.photo == (if f.photo.Some? then f.photo.value else p.photo)
                        && r.value.cost == (if f.cost.Some? then f.cost else p.cost)
                        && r.value.sellerName == (if f.sellerName.Some? then Trim(f.sellerName.value) else p.sellerName)
    ensures r.Some? && StoredProductValid(p) ==> StoredProductValid(r.value)
  {
    if !PatchValid(f) then None
    else
      Some(p.(title := if f.title.Some? then Trim(f.title.value) else p.title,
              productType := if f.productType.Some? then Trim(f.productType.value) else p.productType,
              description := if f.description.Some? then Trim(f.description.value) else p.description,
              averageRating := if f.averageRating.Some? then f.averageRating else p.averageRating,
              photo := if f.photo.Some? then f.photo.value else p.photo,
              cost := if f.cost.Some? then f.cost else p.cost,
              sellerName := if f.sellerName.Some? then Trim(f.sellerName.value) else p.sellerName,
              slug := if f.slug.Some? then f.slug.value else p.slug,
              createdAt := if f.createdAt.Some? then f.createdAt.value else p.createdAt))
  }

  /** Two products the unique index on `description` cannot hold together. */
  predicate Collide(a: Product, b: Product)
  {
    a.description == b.description
  }

  predicate ConflictsWith(products: map<Id, Product>, p: Product)
  {
    exists id | id in products :: id != p.id && Collide(products[id], p)
  }

  /** The products collection as the store holds it. */
  ghost predicate ProductsValid(products: map<Id, Product>, next: Id)
  {
    && (forall id | id in products ::
          && products[id].id == id && id < next && StoredProductValid(products[id])
          && (forall x | x in products[id].reviews :: x < next))
    && (forall a, b | a in products && b in products && a != b :: !Collide(products[a], products[b]))
  }

  /** The unique index: no two products share a description. */
  lemma DescriptionsUnique(products: map<Id, Product>, next: Id, a: Id, b: Id)
    requires ProductsValid(products, next)
    requires a in products && b in products && products[a].description == products[b].description
    ensures a == b
  {
  }

  /** Handing out more ids keeps the collection valid. */
  lemma ProductsValidLater(products: map<Id, Product>, next: Id, later: Id)
    requires ProductsValid(products, next) && next <= later
    ensures ProductsValid(products, later)
  {
  }

  /** Replacing a stored product's review list by one holding only handed-out
      ids keeps the collection valid. */
  lemma ReviewListKeepsValid(products: map<Id, Product>, next: Id, id: Id, list: seq<Id>)
    requires ProductsValid(products, next) && id in products
    requires forall x | x in list :: x < next
    ensures ProductsValid(products[id := products[id].(reviews := list)], next)
  {
    var m := products[id := products[id].(reviews := list)];
    forall a, b | a in m && b in m && a != b
      ensures !Collide(m[a], m[b])
    {
      assert !Collide(products[a], products[b]);
    }
  }

  /** Deleting a product keeps the collection valid. */
  lemma RemoveKeepsValid(products: map<Id, Product>, next: Id, id: Id)
    requires ProductsValid(products, next)
    ensures ProductsValid(products - {id}, next)
  {
  }

  lemma WriteKeepsValid(products: map<Id, Product>, next: Id, p: Product)
    requires ProductsValid(products, next)
    requires StoredProductValid(p) && p.id < next && (forall x | x in p.reviews :: x < next)
    requires !ConflictsWith(products, p)
    ensures ProductsValid(products[p.id := p], next)
  {
    var m := products[p.id := p];
    forall a, b | a in m && b in m && a != b
      ensures !Collide(m[a], m[b])
    {
      if a == p.id {
        assert !Collide(products[b], p);
      } else if b == p.id {
        assert !Collide(products[a], p);
      }
    }
  }
}
