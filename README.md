# Store-API request logic in Dafny

This project models three parts of a small Express/Mongoose marketplace backend.

- **Authentication and authorization.** The `protect` middleware takes a token from the `Authorization` header or the `token` cookie, verifies it and attaches the principal. `authorize` checks the principal's role against an allow-list. The handlers add their own self-or-admin and author-or-admin checks.
- **The request handlers.** These are the account handlers in `controllers/auth.js`, the review handlers in `controllers/review.js` and the product handlers in `controllers/products.js`. The review handlers are meant to keep review-id lists on the author and on the product in step with the reviews; as written they cannot (see "## Findings").
- **The three Mongoose schemas.** For User, Review and Product the model covers the validators, unique indexes, defaults and pre-save hooks.

The store is the class `Database.Database`. It holds one `map` from id to document per collection, plus a counter that hands out fresh ids. Its invariant `Valid()` says three things:

- every stored document passes its schema's validators;
- every unique index holds (user email, user phone, product description, review (product, user));
- no id stored or listed on a document is at or above the counter.

Each handler is a method over the store, with `modifies db`. Its contract covers:

- every outcome the handler can reach, in the order the code checks them;
- the new store in each case, or `unchanged(db)`.

Failures are `Base.Failure` values:

- `Reply(code, message)`: `next(new errorResponse(message, code))`;
- `Uncoded(message)`: an error without a status code;
- `Thrown(e)`: an exception that `asyncHandler` catches, such as a property read on a null principal, a validator failure, a duplicate key, or bcrypt's illegal-arguments error. Three branches in `controllers/products.js` (lines 10, 47 and 63) write `return errorResponse(...)` without `new`; calling the `errorResponse` class that way throws a TypeError, so these branches are `Thrown(TypeError)` too.

The foreign primitives are uninterpreted arrow-typed fields of `Base.Services`: bcrypt's hash and compare, the sha1 digest, jwt's sign and verify, and slugify. The clock is an integer parameter `now`.

Behaviour the code shows that a reader might not expect, modelled as written:

- **The product listing guard.** The guard at `controllers/products.js:27` assigns `10 && role != "admin"` to `listedProduct.length`, and the assignment has the value it assigns. Since 10 is truthy, the condition is just the role test (`ProductController.ListingGuard`, built from `JsAnd` and `AssignLength`). Every non-admin is refused, whatever their count, so there is no 10-product quota. The role enum has no `seller` role.
- **No cascades.** Deleting a user or a product removes nothing else: their reviews stay.
- **No average rating.** The average-rating recomputation is commented out in `models/Review.js`.
- **The `seller` stamp is dropped.** `createProduct` stamps `seller`, but the schema's field is `Seller`. Strict mode drops the stamp, so a product does not record who created it (`ProductModel.SellerKeyIgnored`).
- **Updates skip the pre-save hook.** `findByIdAndUpdate` runs no pre-save hook. A password set through `update` or `updateMe` is stored as given, not hashed, and the slug is not recomputed.
- **Every save rehashes.** The user pre-save hook hashes the password field on every save, so a second save of a loaded document would store the hash of the hash (`UserModel.SaveTwiceHashesTwice`). The handlers that save (updateMyPassword, resetPassword) first assign a new plaintext password, so each stores one hash.
- **forgotPassword always fails for a known email.** `models/User.js` does not define `getResetPasswordToken`, so the call at `controllers/auth.js:233` throws a TypeError before anything is saved or mailed. Even with that method, the document is loaded at `controllers/auth.js:225` without its password (`select: false` at `models/User.js:35`), and the save at line 234 would run the hook on an undefined password, which bcrypt rejects. A reset token can reach the store only through an update body that sets the reset fields (`AuthController.UpdatePlantsResetToken`).
- **`resetPassword` does not await its save.** Without a new password the save is rejected, but its rejection is not observed by the handler. The store keeps the old password and the still-valid token, and the handler still answers 200. The rejection reaches the process-wide `unhandledRejection` handler at `app.js:43-47`, which closes the server.
- **Updates pass the whole body.** update, updateMe, updateReview and updateProduct give the request body to `findByIdAndUpdate` unfiltered, and createProduct gives it to `Product.create`. Any schema path can be set: an update can move a review to another author or product, overwrite a slug, back-date `createdAt`, or set a user's reset fields. Only keys that are not schema paths are dropped.
- **No minimum password length.** The password's minimum-length key is misspelt `minlenght`, so only "required" applies.
- **Missing phones collide.** The phone index is unique and not sparse, so two users without a phone collide.

## Model

| member | source | states |
|---|---|---|
| Text.TrimCharacterized | models/User.js:11 | `trim` leaves the slice of the string with only white space around it, and that slice neither starts nor ends with white space |
| Text.TrimUnique | models/User.js:11 | any slice with those properties is the trimmed string, so trimming is characterised uniquely |
| Text.TrimIdempotent | models/Review.js:8 | trimming an already trimmed value changes nothing |
| Text.Split | middleware/auth.js:13 | `split(" ")` gives at least one part, no part holds the separator, and joining the parts gives back the header |
| Text.SplitJoin | middleware/auth.js:13 | split undoes join when no part holds the separator, so the two are mutual inverses |
| Text.SplitElement | middleware/auth.js:13 | element k is defined exactly when there are more than k parts, and it holds no separator |
| Middleware.ExtractToken | middleware/auth.js:8-18 | on a header starting with "Bearer" the token is the second space-separated part, present iff the header holds a space, and the cookie is ignored; otherwise the token is the cookie when non-empty |
| Middleware.SplitHasSecondPart | middleware/auth.js:13 | a split has a second part exactly when the separator occurs |
| Middleware.BearerTokenTaken | middleware/auth.js:9-13 | "Bearer t" yields t, whatever the cookie holds |
| Middleware.BearerTokenStopsAtSpace | middleware/auth.js:13 | "Bearer t more" yields only t |
| Middleware.BearerWithoutSpaceRefused | middleware/auth.js:9-28 | a "Bearer…" header without a space yields no token and a 401, even with a cookie |
| Middleware.Protect | middleware/auth.js:7-47 | refused with 401 and the same message exactly when the token is missing or fails verification; on success the attached principal is the lookup of the decoded id, or null |
| Middleware.Authorize | middleware/auth.js:50-64 | passes iff the role is in the allow-list, else 403 naming the role; no principal throws |
| Middleware.StoredUsersPassReviewRoles | middleware/auth.js:54 | every valid stored user passes the ("user", "admin") allow-list |
| UserModel.EmailValidIffRegex | models/User.js:24 | the position scan accepts exactly the strings in which /\S+@\S+\.\S+/ matches somewhere |
| UserModel.NewUser | models/User.js:7-51 | creation succeeds iff the validators pass; the name is trimmed, the role defaults to "user", the stored password is the hash, no reset fields, no reviews, and the slug is slugify of the stored name |
| UserModel.UnknownRoleRefused | models/User.js:26-30 | a role outside the enum, e.g. "seller", makes creation fail |
| UserModel.ShortPasswordAccepted | models/User.js:31-36 | a one-character password is accepted |
| UserModel.PreSave | models/User.js:46-51 | a save sets slug = slugify(name) and password = hash(password) and changes nothing else |
| UserModel.SaveTwiceHashesTwice | models/User.js:46-51 | two saves store hash(hash(p)): save is not idempotent on the password |
| UserModel.MatchPwd | models/User.js:61-64 | matchPwd is compare(entered, stored); a missing entered password throws |
| UserModel.ApplyUserPatch | controllers/auth.js:178-181 | an update succeeds iff the set fields pass their validators; every schema path the body sets is written (name trimmed, password raw, slug, reset fields and creation time as given), the rest is kept, and validity is preserved |
| UserModel.EmailsUnique | models/User.js:20-25 | in a valid collection no two users share an email |
| UserModel.PhonesUnique | models/User.js:15-19 | in a valid collection no two users share a phone, and at most one has none |
| UserModel.WriteKeepsValid | models/User.js:15-25 | writing a valid user that collides with no other keeps the collection valid |
| ReviewModel.NewReview | models/Review.js:4-26 | creation succeeds iff title and text are non-empty and within 100/500 after trimming and the rating lies in [1, 5]; product and author are recorded, the photo defaults, the slug is slugify(title) |
| ReviewModel.PreSave | models/Review.js:70-74 | a save sets slug = slugify(title) and changes nothing else |
| ReviewModel.ApplyReviewPatch | controllers/review.js:119-122 | an update succeeds iff the set fields pass; every schema path of the body is written, author, product, slug and creation time included; a new title alone leaves the slug as it was |
| ReviewModel.OneReviewPerPair | models/Review.js:44 | in a valid collection at most one review exists per (product, user) |
| ReviewModel.WriteKeepsValid | models/Review.js:44 | writing a valid review that collides with no other keeps the collection valid |
| ProductModel.NewProduct | models/Product.js:4-51 | creation succeeds iff title, type, description and Seller are non-empty and within their limits after trimming and the rating lies in [1, 5]; the creation time is the body's or now; no reviews listed, slug = slugify(title) |
| ProductModel.SellerKeyIgnored | controllers/products.js:22 | the stamped lower-case `seller` key has no effect on the created product |
| ProductModel.BodySlugOverwritten | models/Product.js:48-51 | a slug in the create body has no effect: the pre-save hook recomputes it |
| ProductModel.PreSave | models/Product.js:48-51 | a save sets slug = slugify(title) and changes nothing else |
| ProductModel.ApplyProductPatch | controllers/products.js:57-60 | an update succeeds iff the set fields pass; every schema path the body sets is written, slug and creation time included, the review list is kept, and validity is preserved |
| ProductModel.DescriptionsUnique | models/Product.js:18-24 | in a valid collection no two products share a description |
| ProductModel.WriteKeepsValid | models/Product.js:18-24 | writing a valid product that collides with no other keeps the collection valid |
| Lists.Without | controllers/review.js:155-157 | filtering removes every occurrence of the id and adds nothing |
| Lists.WithoutKeepsOthers | controllers/review.js:170-173 | filtering keeps every other id as often as it occurred |
| Lists.RemoveSingle | controllers/review.js:155-157 | filtering the id out of a + [id] + b gives a + b, so the other ids keep their order |
| Lists.AppendThenRemove | controllers/review.js:84-85 | pushing a fresh id and then filtering it out restores the list |
| Database.Database.InsertUser | controllers/auth.js:17-23 | User.create: a validation failure or an index clash changes nothing; otherwise the new user is stored under a fresh id |
| Database.Database.InsertReview | controllers/review.js:60-66 | Review.create: a validation failure or a second review of the pair changes nothing; otherwise the review is stored under a fresh id |
| Database.Database.InsertProduct | controllers/products.js:35 | Product.create: a validation failure or a duplicate description changes nothing; otherwise the product is stored under a fresh id |
| Database.Database.SaveUser | controllers/auth.js:215-216 | saving a user whose password, slug or reset fields changed writes that document only and keeps the store valid |
| Database.Database.UpdateUserById | controllers/auth.js:178-181 | validation first, then a missing id gives null with no change, then the indexes; otherwise the patched user replaces the old one |
| Database.Database.UpdateReviewById | controllers/review.js:119-122 | as above for reviews |
| Database.Database.UpdateProductById | controllers/products.js:57-60 | as above for products |
| ReviewController.GetReviews | controllers/review.js:10-22 | with a product id, exactly the reviews of that product, with count equal to their number; otherwise the prepared listing |
| ReviewController.GetReview | controllers/review.js:26-42 | the review with the id, else 404 |
| ReviewController.MayChange | controllers/review.js:110 | the ownership check of updateReview (and of deleteReview at line 143): the review's author or any admin |
| ReviewController.PushReviewId | controllers/review.js:68-91 | the new id goes at the end of the author's list and at the end of the product's list; nothing else changes |
| ReviewController.CreateReview | controllers/review.js:46-97 | 404 on a missing product and a throw without a principal, both with no change; a failed create changes nothing; a successful create stores the review and then always throws at `user.reviews.push`, leaving both users and products unchanged, so the handler never answers 201 |
| ReviewController.CreateReviewDeclared | controllers/review.js:46-97 | with `reviews` declared on both schemas: the same checks; on success the review has the route's product and the caller as author, and its id, absent before, is appended to both lists |
| ReviewController.UpdateReview | controllers/review.js:101-128 | 404, then a throw without a principal, then 401 for anyone but the author or an admin, all with no change; then the update by id |
| ReviewController.PullFromProduct | controllers/review.js:152-166 | the product's list becomes the list without the id |
| ReviewController.PullFromUser | controllers/review.js:168-182 | the author's list becomes the list without the id |
| ReviewController.DeleteReview | controllers/review.js:133-191 | 404, a throw without a principal, and 401 for anyone but the author or an admin; every permitted delete throws at `product.reviews.filter`; the handler changes nothing and never answers 200 |
| ReviewController.DeleteReviewDeclared | controllers/review.js:133-191 | with `reviews` declared on both schemas: the same checks, with no change; then the id is filtered out of the product's list, then the author's list, and the review is deleted |
| AuthController.SendTokenResponse | controllers/auth.js:290-317 | the token signs the user's id; the cookie is httpOnly and expires at now + days × 86,400,000 ms; admins get their own greeting |
| AuthController.LogoutCookie | controllers/auth.js:63-72 | the logout cookie holds "none" and expires at now + 10,000 ms |
| AuthController.SessionOutlivesLogout | controllers/auth.js:293-298 | with a lifetime of a day or more, a session cookie outlives a logout cookie issued at the same time |
| AuthController.Register | controllers/auth.js:13-27 | User.create on the body, then a token response with 201 |
| AuthController.CreateUser | controllers/auth.js:77-93 | User.create on the body, answered with the role and name |
| AuthController.Login | controllers/auth.js:32-58 | 400 when either field is empty; otherwise success iff the user holding the email has a matching password, and every other case is 401 "Invalid Credentials" |
| AuthController.GetMe | controllers/auth.js:98-105 | the caller's current record, null if gone; no principal throws |
| AuthController.GetUser | controllers/auth.js:117-130 | the user with the id, else 404 |
| AuthController.DeleteUser | controllers/auth.js:135-152 | 404 with no change; otherwise exactly that user is removed and nothing cascades |
| AuthController.MayUpdate | controllers/auth.js:166-167 | the check of update: an admin, or the caller updating their own id |
| AuthController.Update | controllers/auth.js:157-187 | 404 before any check of the caller; a non-admin updating another id gets 401 with no change; admin or self proceeds to the update by id |
| AuthController.UpdateMe | controllers/auth.js:192-202 | the update by id on the caller's own id |
| AuthController.UpdateMyPassword | controllers/auth.js:207-219 | a wrong or missing current password or a missing new one changes nothing; otherwise the stored password becomes hash(new) and a token response follows |
| AuthController.ForgotPassword | controllers/auth.js:224-234 | 404 exactly when no user holds the email; for a known email the call of the undefined `getResetPasswordToken` throws a TypeError; nothing changes either way |
| AuthController.UpdatePlantsResetToken | controllers/auth.js:178-181 | an update body setting both reset fields leaves a user that resetPassword accepts exactly until the given expiry |
| AuthController.AfterReset | controllers/auth.js:281-284 | the saved document stores hash(new password), has both reset fields cleared so that no digest matches it at any time, and keeps everything but the password, slug and reset fields |
| AuthController.SaveReset | controllers/auth.js:281-284 | with a truthy password the user is replaced by that document; without one the un-awaited save fails and the store is unchanged |
| AuthController.ResetMatches | controllers/auth.js:270-275 | the query of resetPassword: the user holds the digest and an expiry strictly after now |
| AuthController.ResetPassword | controllers/auth.js:264-287 | success iff some user holds digest(token) with an expiry strictly after now, else 400 with no change; with a new password it is stored hashed and the token no longer matches; without one the store is unchanged |
| ProductController.GetProducts | controllers/products.js:6-18 | every product, count equal to their number, status 201 |
| ProductController.GetProduct | controllers/products.js:43-54 | the product with the id; for a missing id, the call of `errorResponse` without `new` throws a TypeError |
| ProductController.JsAnd | controllers/products.js:27 | `&&` yields one of its operands, and its result is truthy iff both operands are |
| ProductController.AssignLength | controllers/products.js:27 | the assignment to `length` has the assigned value, whatever the old length; a boolean sets the length to 1 or 0 |
| ProductController.ListingGuard | controllers/products.js:27 | evaluating `listedProduct.length = 10 && role != "admin"` as JavaScript does gives a condition that holds iff the role is not "admin" |
| ProductController.GuardIgnoresCount | controllers/products.js:25-33 | the listed count takes no part in the guard, and an admin always passes |
| ProductController.CreateProduct | controllers/products.js:20-41 | no principal throws; every non-admin is refused with no change; an admin's body, stamped with `seller`, goes to Product.create; success implies the caller is an admin |
| ProductController.UpdateProduct | controllers/products.js:56-70 | the update by id for any caller; for a missing id, the call of `errorResponse` without `new` throws a TypeError and nothing changes |
| ProductController.DeleteProduct | controllers/products.js:72-82 | for any caller, exactly the document with the id is removed; a missing id is not an error |

## Left out

- Asynchrony: each handler is one sequential step, with no interleaving of requests. The model therefore says nothing about lost updates of the back-reference lists, or about the order in which the un-awaited `sendEmail`, `user.save()` and `user.remove()` finish.
- Average-rating recomputation: the aggregation is commented out in the source, and `findByIdAndDelete` fires no remove hook.
- The real salted bcrypt, jwt expiry, sha1 and slugify: these are uninterpreted functions. `hash` is deterministic because the salt is abstracted away.
- forgotPassword after its throw at `controllers/auth.js:233`: the reset URL, `sendEmail` and the catch branch are never reached. `sendEmail` in `utils/sendEmail.js` is `async`, so its failure could not reach that catch branch either.
- The process-wide `unhandledRejection` handler at `app.js:43-47`: un-awaited saves and removes that fail would close the server; the model says nothing about the process.
- getUsers and the listing without a product id: both answer with the `advanceResult` pagination, which is not part of this model.
- Response JSON shapes beyond status, token, cookie and message; the error middleware that turns failures into responses; and the routes. The allow-list of the review routes is the constant `Middleware.ReviewRoles`.
- The order of query results: `find` results are maps keyed by id, not arrays.
- ObjectId text: ids are natural numbers, and messages show them in decimal rather than as 24-digit hex.
- An ObjectId in the URL that cannot be cast: this makes a query throw a CastError. Ids are always well-formed here.
- String lengths in the validators count Unicode code points, where JavaScript counts UTF-16 code units.
- `Product.find({ user })` in createProduct: its result is not used, because the guard ignores the count.
- `forgotPassword` with no email in the body is not modelled: `email` is always a string.
- Unknown body keys: strict mode drops them, so request bodies are records of schema paths. A body field is either absent or carries a value of the path's type; setting a path to `null` and failed casts (a `createdAt` that is not a date) are not modelled.
- CreateReviewDeclared: once `reviews` is a declared path, request bodies for updates and for createProduct could set the lists as well; the corrected model keeps them out of the bodies.
- `utils/errorResponse.js` and `middleware/async.js` are not part of this model. `errorResponse` is taken to be a class, as the `new errorResponse(...)` of every other handler suggests, so calling it without `new` throws a TypeError, which `asyncHandler` passes to `next`.
- Product.find's null branch in getProducts: `find` never yields null, so the branch cannot be reached.

## Findings

| source | as written | input that shows it | evidently intended | confidence | as-written member | corrected member |
|---|---|---|---|---|---|---|
| controllers/review.js:69-72 | `user.reviews.push(review._id)`, but models/User.js declares no `reviews` path, so `user.reviews` is undefined and `push` throws after the review has been created | an existing user posting a valid first review of an existing product | the new review's id is appended to the author's list and to the product's list, and the handler answers 201 | not executed | ReviewController.CreateReview | ReviewController.CreateReviewDeclared |
| controllers/review.js:153-157 | `product.reviews.filter(...)`, but models/Product.js declares no `reviews` path, so `product.reviews` is undefined and `filter` throws before anything is deleted | the author of an existing review deleting it | the id is filtered out of the product's and the author's lists, the review is deleted, and the handler answers 200 | not executed | ReviewController.DeleteReview | ReviewController.DeleteReviewDeclared |
