/** Values shared by every controller and store of the shop: optional and
    fallible results, the authenticated caller, the error kinds the
    controllers answer with, and JavaScript truthiness of request fields. */
module Common {

  datatype Option<+T> = None | Some(value: T)

  datatype Result<+T, +E> = Ok(value: T) | Err(error: E)

  /** The caller as the authentication middleware attaches it to a request
      (`req.user`): its id and its role name. */
  datatype Requester = Requester(id: int, role: string)

  predicate IsAdmin(r: Requester) {
    r.role == "ADMIN"
  }

  /** The guard shared by order reads and review deletion: the caller owns the
      record or is an administrator. */
  predicate OwnerOrAdmin(r: Requester, ownerId: int) {
    r.id == ownerId || IsAdmin(r)
  }

  /** Every error answer of the controllers, one constructor per message. */
  datatype Error =
    | NoOrderItems                        // 400 'No order items'
    | ProductNotFound(productId: int)     // 404 'Product <id> not found'
    | InsufficientStockFor(name: string)  // 400 'Insufficient stock for <name>'
    | InsufficientStock                   // 400 'Insufficient stock'
    | NotFound                            // 404 '<entity> not found'
    | Forbidden                           // 403 'Not authorized' / admin middleware
    | InvalidStatus                       // 400 'Invalid status'
    | AlreadyReviewed                     // 400 'You have already reviewed this product'
    | NotPurchased                        // 400 'You can only review products you have purchased'
    | InvalidReview                       // 400 from the review route validator
    | MissingFields                       // 400 'Missing required fields: ...'
    | IdsRequired                         // 400 'Product IDs are required'
    | TooManyIds                          // 400 'Maximum 3 products can be compared'
    | AlreadyCompared                     // thrown 'Product already in comparison'
    | ServerError                         // 500: a thrown TypeError or a rejected query

  /** `findUnique({ where: { id } })` over rows kept in a sequence: the
      position of the first row with that key, if there is one. */
  function FindKey<T>(rows: seq<T>, keyOf: T -> int, key: int): (r: Option<nat>)
    ensures r.None? ==> forall i :: 0 <= i < |rows| ==> keyOf(rows[i]) != key
    ensures r.Some? ==> r.value < |rows| && keyOf(rows[r.value]) == key
  {
    if rows == [] then None
    else if keyOf(rows[0]) == key then Some(0)
    else match FindKey(rows[1..], keyOf, key)
      case None => None
      case Some(i) => Some(i + 1)
  }

  /** JavaScript truthiness of an optional string field: `undefined`, `null`
      and the empty string are falsy. */
  predicate Truthy(s: Option<string>) {
    s.Some? && s.value != ""
  }

  /** JavaScript truthiness of an optional numeric field: `undefined`, `null`
      and 0 are falsy. A supplied `null` and a supplied 0 are both `Some(0)`
      here; every controller treats the two alike. */
  predicate TruthyNum(x: Option<int>) {
    x.Some? && x.value != 0
  }

  /** `...(field && { field })`: a truthy field replaces the stored value,
      anything else keeps it. */
  function MergeTruthy(stored: string, field: Option<string>): (r: string)
    ensures Truthy(field) ==> r == field.value
    ensures !Truthy(field) ==> r == stored
  {
    if Truthy(field) then field.value else stored
  }

  /** The same spread for a nullable stored column. */
  function MergeTruthyOpt(stored: Option<string>, field: Option<string>): (r: Option<string>)
    ensures Truthy(field) ==> r == field
    ensures !Truthy(field) ==> r == stored
  {
    if Truthy(field) then field else stored
  }

  /** Where an uploaded file is served from: `/uploads/<filename>`. */
  function UploadPath(filename: string): (r: string)
    ensures |r| > |filename| && r[|r| - |filename|..] == filename
  {
    "/uploads/" + filename
  }

  /** The rows of a table in the opposite order (`orderBy: { createdAt: 'desc' }`
      over rows kept in creation order). */
  function Reverse<T>(s: seq<T>): (r: seq<T>)
    ensures |r| == |s| && forall i :: 0 <= i < |s| ==> r[i] == s[|s| - 1 - i]
  {
    if s == [] then [] else Reverse(s[1..]) + [s[0]]
  }
}
