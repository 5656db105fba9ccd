/** The product handlers: listing, creation behind the listing guard,
    update and deletion. None of them checks who owns the product. */
module ProductController {
  import opened Base
  import U = UserModel
  import P = ProductModel
  import opened Database

  /** What getProducts answers: every product, their number, and status 201. */
  datatype ProductList = ProductList(status: nat, count: nat, data: map<Id, P.Product>)

  /** getProducts: all products, with `count` their number; `find` never
      yields null, so the 404 branch is never taken. */
  function GetProducts(db: Database): (r: ProductList)
    reads db
    ensures r.status == 201 && r.data == db.products && r.count == |db.products|
  {
    ProductList(201, |db.products|, db.products)
  }

  /** getProduct: the product with the id, answered with 201. For a missing id
      the handler calls the `errorResponse` class without `new`, which throws
      a TypeError before the error object exists. */
  function GetProduct(db: Database, id: Id): (r: Result<P.Product>)
    reads db
    ensures r.Ok? <==> id in db.products
    ensures r.Ok? ==> r.value == db.products[id]
    ensures r.Err? ==> r.failure == Thrown(TypeError)
  {
    if id in db.products then Ok(db.products[id]) else Err(Thrown(TypeError))
  }

  /** The listing cap the guard's message speaks of. */
  const MaxListed := 10

  /** The JavaScript values the guard's expression passes through. */
  datatype JsValue = JsNumber(n: int) | JsBool(b: bool)

  /** ToBoolean: zero and false are falsy. */
  predicate JsTruthy(v: JsValue)
  {
    match v
    case JsNumber(n) => n != 0
    case JsBool(b) => b
  }

  /** `a && b`: the left operand when it is falsy, otherwise the right one. */
  function JsAnd(a: JsValue, b: JsValue): (r: JsValue)
    ensures JsTruthy(r) <==> JsTruthy(a) && JsTruthy(b)
    ensures r == a || r == b
  {
    if JsTruthy(a) then b else a
  }

  /** The effect of `array.length = v`: the new length, and the value of the
      assignment expression. */
  datatype LengthAssignment = LengthAssignment(length: nat, value: JsValue)

  /** `array.length = v` on an array of any length: the length becomes
      ToNumber(v), a RangeError (None) when that is not a valid array length,
      and the expression has the value `v` itself, not the new length. */
  function AssignLength(length: nat, v: JsValue): (r: Option<LengthAssignment>)
    ensures r.Some? ==> r.value.value == v
    ensures v.JsBool? ==> r.Some? && r.value.length == (if v.b then 1 else 0)
  {
    match v
    case JsBool(b) => Some(LengthAssignment(if b then 1 else 0, v))
    case JsNumber(n) => if 0 <= n < 0x1_0000_0000 then Some(LengthAssignment(n, v)) else None
  }

  /** The condition of createProduct's guard, evaluated as JavaScript does:
      `=` binds looser than `&&`, so `listedProduct.length = 10 && role != "admin"`
      assigns `10 && role != "admin"` to the length and has that value. As 10
      is truthy, the whole condition is the role test. */
  function ListingGuard(listed: nat, role: string): (refused: bool)
    ensures refused <==> role != "admin"
  {
    var assignment := AssignLength(listed, JsAnd(JsNumber(MaxListed), JsBool(role != "admin")));
    if assignment.Some? then JsTruthy(assignment.value.value) else assert false; false
  }

  /** The guard looks at the role only: every non-admin is refused and every
      admin passes, whatever either has listed. */
  lemma GuardIgnoresCount(a: nat, b: nat, role: string)
    ensures ListingGuard(a, role) == ListingGuard(b, role)
    ensures ListingGuard(a, "admin") == false
  {
  }

  /** createProduct: the caller's id is stamped into the body as `seller`
      (reading it throws without a principal); a caller the guard refuses gets
      an error without status code and nothing is created; otherwise
      Product.create on the stamped body. The `seller` key is not in the schema,
      so the created document does not record the caller. */
  method CreateProduct(db: Database, env: Services, caller: Option<U.User>, body: P.ProductFields, now: int)
    returns (r: Result<P.Product>)
    requires db.Valid()
    modifies db
    ensures db.Valid()
    ensures caller.None? ==> r == Err(Thrown(TypeError)) && unchanged(db)
    ensures caller.Some? && caller.value.role != "admin" ==>
              r == Err(Uncoded("The user with name " + caller.value.name + " has already listed 10 products"))
              && unchanged(db)
    ensures caller.Some? && caller.value.role == "admin" ==>
              var made := P.NewProduct(old(db.next), body.(seller := Some(caller.value.id)), now, env);
              && (made.None? ==> r == Err(Thrown(ValidationFailed)) && unchanged(db))
              && (made.Some? && P.ConflictsWith(old(db.products), made.value) ==>
                    r == Err(Thrown(DuplicateKey)) && unchanged(db))
              && (made.Some? && !P.ConflictsWith(old(db.products), made.value) ==>
                    && r == Ok(made.value) && db.products == old(db.products)[old(db.next) := made.value]
                    && db.next == old(db.next) + 1 && db.users == old(db.users) && db.reviews == old(db.reviews))
    ensures r.Ok? ==> caller.Some? && caller.value.role == "admin"
  {
    if caller.None? {
      return Err(Thrown(TypeError));
    }
    var stamped := body.(seller := Some(caller.value.id));
    if ListingGuard(|db.products|, caller.value.role) {
      return Err(Uncoded("The user with name " + caller.value.name + " has already listed 10 products"));
    }
    r := db.InsertProduct(stamped, now, env);
  }

  /** updateProduct: findByIdAndUpdate with the whole body, for any caller. For
      a missing id the handler calls the `errorResponse` class without `new`,
      which throws a TypeError. */
  method UpdateProduct(db: Database, id: Id, patch: P.ProductFields) returns (r: Result<P.Product>)
    requires db.Valid()
    modifies db
    ensures db.Valid()
    ensures !P.PatchValid(patch) ==> r == Err(Thrown(ValidationFailed)) && unchanged(db)
    ensures P.PatchValid(patch) && id !in old(db.products) ==> r == Err(Thrown(TypeError)) && unchanged(db)
    ensures P.PatchValid(patch) && id in old(db.products) ==>
              var patched := P.ApplyProductPatch(old(db.products)[id], patch).value;
              && (P.ConflictsWith(old(db.products), patched) ==> r == Err(Thrown(DuplicateKey)) && unchanged(db))
              && (!P.ConflictsWith(old(db.products), patched) ==>
                    && r == Ok(patched) && db.products == old(db.products)[id := patched]
                    && db.users == old(db.users) && db.reviews == old(db.reviews) && db.next == old(db.next))
  {
    var updated := db.UpdateProductById(id, patch);
    match updated
    case Err(f) => r := Err(f);
    case Ok(None) => r := Err(Thrown(TypeError));
    case Ok(Some(product)) => r := Ok(product);
  }

  /** deleteProduct: `deleteOne` on the id, for any caller; a missing id is not
      an error. Only that document goes: the reviews of the product and the
      ids listed on users stay. */
  method DeleteProduct(db: Database, id: Id) returns (r: Result<()>)
    requires db.Valid()
    modifies db
    ensures db.Valid()
    ensures r == Ok(())
    ensures db.products == old(db.products) - {id}
    ensures db.users == old(db.users) && db.reviews == old(db.reviews) && db.next == old(db.next)
  {
    P.RemoveKeepsValid(db.products, db.next, id);
    db.products := db.products - {id};
    r := Ok(());
  }
}
