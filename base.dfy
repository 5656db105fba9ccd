/** Values shared by every part of the store API: document ids, optional values,
    the ways a request handler can fail, and the foreign primitives (bcrypt, sha1,
    jsonwebtoken, slugify) that the model treats as uninterpreted functions. */
module Base {

  /** A document id (a MongoDB ObjectId). */
  type Id = nat

  datatype Option<+T> = None | Some(value: T)

  /** What a callee can throw. The error middleware that turns these into a
      response is not part of this model. */
  datatype Exception =
    | TypeError          // a property read on `null` or `undefined`, or a class called without `new`
    | ValidationFailed   // a Mongoose validator refused a field
    | DuplicateKey       // a unique index refused a write (MongoDB error E11000)
    | IllegalArguments   // bcrypt.compare called with a non-string

  /** How a handler ends when it does not succeed. */
  datatype Failure =
    | Reply(code: nat, message: string)   // next(new errorResponse(message, code))
    | Uncoded(message: string)            // next(new errorResponse(message)) without a status
    | Thrown(e: Exception)                // an exception caught by asyncHandler

  datatype Result<+T> = Ok(value: T) | Err(failure: Failure)

  /** The foreign primitives and configuration the handlers depend on.
      `hash` is bcrypt.hash with its salt abstracted away, `compare` is
      bcrypt.compare(entered, stored), `digest` is the hex sha1 digest,
      `sign`/`verify` are jwt.sign/jwt.verify under the configured secret,
      `slugify` is slugify(_, { lower: true }), and `cookieExpireDays` is
      the configured cookie lifetime in days. */
  datatype Services = Services(
    hash: string -> string,
    compare: (string, string) -> bool,
    digest: string -> string,
    sign: Id -> string,
    verify: string -> Option<Id>,
    slugify: string -> string,
    cookieExpireDays: int)

  /** Decimal text of an id, as it appears inside error messages: digits only,
      no leading zero, and read back as a decimal numeral it is the id. */
  function IdText(id: Id): (r: string)
    ensures r != [] && (forall i | 0 <= i < |r| :: '0' <= r[i] <= '9')
    ensures r[0] != '0' || r == "0"
    ensures DecimalValue(r) == id
  {
    if id < 10 then [DigitChar(id)]
    else
      var prefix := IdText(id / 10);
      assert (prefix + [DigitChar(id % 10)])[..|prefix|] == prefix;
      prefix + [DigitChar(id % 10)]
  }

  /** The number a string of decimal digits denotes, most significant first. */
  function DecimalValue(s: string): nat
    requires forall i | 0 <= i < |s| :: '0' <= s[i] <= '9'
  {
    if s == [] then 0
    else 10 * DecimalValue(s[..|s| - 1]) + (s[|s| - 1] as int - '0' as int)
  }

  /** The character of a decimal digit. */
  function DigitChar(d: nat): (c: char)
    requires d < 10
    ensures '0' <= c <= '9' && c as int - '0' as int == d
  {
    ['0', '1', '2', '3', '4', '5', '6', '7', '8', '9'][d]
  }

  /** JavaScript truthiness of an optional string: `undefined` and "" are falsy. */
  predicate Truthy(s: Option<string>)
  {
    s.Some? && s.value != []
  }
}
