# Food-ordering backend: cart engine and user rules

A Dafny model of the in-process business rules of a food-ordering marketplace
backend, the logic that sits between its database reads and writes:

- **Cart engine** (`Models/cart.js`, module `Carts` in `cart.dfy`). Each user
  has at most one cart. A cart is an ordered list of line items
  `(product, qty)`. The engine gets or lazily creates a cart, adds one of a
  dish (a bump of its line or a new line with qty 1), and removes one of a dish
  (a decrement, or a splice when qty is 1). It also clears a cart. Every
  operation answers with a `{ code, result }` pair. `CartStore` holds the carts
  collection as a map from owning user to cart; its methods update that map the
  way the source mutates `cart.items` and then saves it. The derived
  `totalQty` is a left fold over the lines. A response flattens each line
  against the live dish catalog.
- **User rules** (`Models/user.js`, module `Users` in `user.dfy`). This covers
  the all-or-nothing address validator, the role and preference enums with
  their defaults, and registration. It covers login, where an unknown email and
  a wrong password give the identical answer. It covers the edit rules: the
  disallowed-field loop checked first, the conditional overwrite of name, phone
  and preference, the address set/clear/reject decision, and a refusal that
  saves nothing. The user that registration, login and edit hand back is the
  document with `password` deleted. (The profile route, which sends the stored
  document itself, is not part of this model.) `UserStore` holds the users collection in natural order;
  `findOne`/`findById` answer with the first match.

Outside collaborators are parameters. bcrypt's hash and compare and the
`isEmail`/`isMobilePhone` checks are uninterpreted fields of `Primitives`. A
token is an opaque value carrying the user id. The dish catalog is a function
from dish id to `(name, price)`. Every scalar body field is an `Option<string>`
(`None` is `undefined`); the address is an `Option<Address>`. JavaScript truthiness is written out where the code
tests it. The address fields, the email's `required` check and the phone
validator treat `""` like a missing value. The edit's `!== undefined` tests on
name, phone and preference count `Some("")` as given.

The evident intent of clearing a cart is to delete the cart owned by the
user. The code instead passes the user id to `findByIdAndDelete`, so it
deletes the cart whose own id equals the user id. Ids are minted per insert,
so no cart id equals a user id and the literal clear deletes nothing.
`ObjectId` keeps the collection that minted it, so the model can state this.
`CartStore.ClearCartForUser` models the code as written, and `CartStore.ClearCartOfOwner` models the
intended behaviour (see Findings).

The schema's address validator is modelled the same way.
`AddressValidatorPasses` is the validator as Mongoose reads it, and
registration uses it. `IsCompleteAddress` is the all-or-nothing rule the
validator is evidently meant to enforce, and the edit's own check agrees with
it (see Findings).

## Model

| member | source | states |
|---|---|---|
| `Carts.IndexOf` | Models/cart.js:163-167 | the index of the first line for the dish, -1 exactly when no line holds it |
| `Carts.FindLine` | Models/cart.js:163-165 | the `findIndex` scan returns that first index, or -1 |
| `Carts.Flatten` | Models/cart.js:70-76 | flattened lines have the stored lines' length, dish order and qty per index, with name and price from the live catalog |
| `Carts.AddOne` | Models/cart.js:103-109 | the lines after one add; its meaning is stated by `AddOneEffect`, `AddOneWellFormed`, `AddOneTotal` and `RemoveUndoesAdd` |
| `Carts.RemoveAt` | Models/cart.js:174-180 | the lines after one remove; its meaning is stated by `RemoveAtEffect`, `RemoveAtWellFormed`, `RemoveAtTotal` and `RemoveUndoesAdd` |
| `Carts.TotalQty` | Models/cart.js:36-38 | the `totalQty` fold; when every qty is at least 1 it is at least the number of lines; its behaviour under update, append and splice is stated by the three `TotalQty*` lemmas |
| `Carts.View` | Models/cart.js:121-128 | the plain object of a cart: its ids, the `Flatten` lines and `TotalQty` of its items (the properties are those of `Flatten` and `TotalQty`) |
| `Carts.DeleteById` | Models/cart.js:212 | `findByIdAndDelete` on the carts map; `ClearByIdKeepsOwnersCart` and `ClearByIdMissesOwnersCart` state what it keeps |
| `Carts.TotalQtyAppend` | Models/cart.js:36-38 | appending a line adds its qty to `totalQty` |
| `Carts.TotalQtyUpdate` | Models/cart.js:36-38 | replacing one line changes `totalQty` by exactly that line's change in qty |
| `Carts.TotalQtyDelete` | Models/cart.js:36-38 | splicing out one line lowers `totalQty` by that line's qty |
| `Carts.IndexOfUnique` | Models/cart.js:12-14 | with one line per dish, the found line is the dish's only line |
| `Carts.AddOneEffect` | Models/cart.js:103-109 | adding a dish already present raises its line by exactly 1; a new dish is appended with qty 1; other lines and their order are unchanged |
| `Carts.AddOneWellFormed` | Models/cart.js:103-109 | add keeps one line per dish and every qty >= 1, and the dish is then in the cart |
| `Carts.AddOneTotal` | Models/cart.js:103-109 | a successful add raises `totalQty` by 1 |
| `Carts.RemoveAtEffect` | Models/cart.js:174-180 | qty > 1 is decremented by exactly 1; a qty-1 line is deleted, the rest keep their relative order, and the dish is no longer in the cart |
| `Carts.RemoveAtWellFormed` | Models/cart.js:176-180 | remove keeps one line per dish and every qty >= 1 |
| `Carts.RemoveAtTotal` | Models/cart.js:174-180 | a successful remove lowers `totalQty` by 1 |
| `Carts.RemoveUndoesAdd` | Models/cart.js:103-180 | removing one of a dish right after adding it restores the lines exactly |
| `Carts.AddTwiceOneLine` | Models/cart.js:103-109 | adding the same dish twice to an empty cart gives one line with qty 2 |
| `Carts.DeleteByForeignIdKeepsAll` | Models/cart.js:212 | in a valid carts collection, deleting by an id that the carts collection did not mint (a user id) leaves every cart in place |
| `Carts.ClearByIdKeepsOwnersCart` | Models/cart.js:210-216 | clearing with a user id leaves that user's cart untouched unless the cart's own id equals the user id |
| `Carts.CartStore.FindOrCreate` | Models/cart.js:90-98 | an existing cart is returned unchanged; otherwise an empty cart with a fresh id is created for the user |
| `Carts.CartStore.GetOrCreate` | Models/cart.js:54-83 | answers 200 with the flattened cart; creates an empty cart with the next cart id only when none exists, advancing the id counter by one; when a cart exists, changes neither it nor the id counter |
| `Carts.CartStore.AddItem` | Models/cart.js:85-141 | the user's lines become the add-one result (a new cart holds just `[(p, 1)]`), `totalQty` rises by 1, the id counter advances only when a cart is created, the collection invariant holds, the answer is 200 with the flattened cart |
| `Carts.CartStore.RemoveItem` | Models/cart.js:143-208 | no cart gives 404 "Cart not found" and creates nothing; a dish not in the cart gives 404 "Product not found in cart" and changes nothing; otherwise the line is decremented or spliced, `totalQty` drops by 1, the answer is 200 |
| `Carts.CartStore.ClearCartForUser` | Models/cart.js:210-223 | the carts become `DeleteById(old carts, userId)`, which for a user id (not minted by the carts collection) is the old carts unchanged, and the answer is 404 "User Deleted successfully" |
| `Carts.CartStore.ClearCartOfOwner` | Models/cart.js:210-216 | the intended clear: the user's own cart is gone, every other cart is unchanged, and the answer is 200 |
| `Users.RoleOf` | Models/user.js:56-60 | an absent role defaults to buyer; a value is accepted exactly when it is "seller" or "buyer", and names the role it yields |
| `Users.PreferenceOf` | Models/user.js:62-66 | an absent preference defaults to both; a value is accepted exactly when it is "veg", "nonveg" or "both" |
| `Users.EnumNamesRoundTrip` | Models/user.js:56-66 | each enum value's stored name casts back to that value |
| `Users.IsCompleteAddress` | Models/user.js:19-25 | holds exactly when the address is absent or 0 or 4 of its fields are given; fails exactly for 1 to 3 given fields |
| `Users.AddressValidatorPasses` | Models/user.js:19-25 | the validator as Mongoose reads its result: every all-or-nothing address passes, and an address fails exactly when 1 to 3 fields are given and the first field not given is present but empty (a missing one yields `undefined`, which counts as a pass) |
| `Users.AddressDecision` | Models/user.js:143-157 | 0 fields given clears the address, 4 replace it with the body's address, 1 to 3 are refused |
| `Users.DecisionAgreesWithValidator` | Models/user.js:143-149 | the edit accepts exactly the addresses on which `isCompleteAddress` returns a truthy value (`IsCompleteAddress`); that registration stores some partial addresses the edit refuses is `PartialAddressPassesAsWritten` |
| `Users.Strip` | Models/user.js:100-101 | `toObject()` with `password` deleted: the result type has no password field; `StripForgetsOnlyPassword` states what it keeps |
| `Users.StripForgetsOnlyPassword` | Models/user.js:100-101 | two documents give the same returned object exactly when they differ at most in the password |
| `Users.InvalidPaths` | Models/user.js:28-75 | the schema paths whose validators fail; `StoredIffNoInvalidPaths` ties an empty result to a storable document |
| `Users.StoredIffNoInvalidPaths` | Models/user.js:28-75 | no schema validator fails on a document exactly when the document is fit to store |
| `Users.FindOne` | Models/user.js:83-85 | the first document in natural order matching the filter, -1 exactly when none does |
| `Users.Document` | Models/user.js:93-97 | the registered document passes every validator, stores the hashed password, takes name, phone and address from the body, and takes buyer and both as defaults |
| `Users.FirstPresent` | Models/user.js:129-134 | the first of the listed keys the body holds, none exactly when it holds none of them |
| `Users.FirstDisallowed` | Models/user.js:129-134 | the loop over `_id`, `email`, `password` returns the first present one in that order |
| `Users.OnlyCredentialKeysBlock` | Models/user.js:129-134 | the check passes exactly when none of `_id`, `email`, `password` is present; `_id` is reported before `email` |
| `Users.Edited` | Models/user.js:139-149 | the edited document keeps id, email, password and role; it takes name, phone and a valid preference only when the body defines them; the address is kept, removed when all four fields are empty, or replaced when all four are given |
| `Users.EditInvalidPaths` | Models/user.js:159 | the validator paths that fail when the edited document is saved, with the preference checked as the body gave it |
| `Users.ApplyEdit` | Models/user.js:139-157 | a partial address is refused; otherwise the field-by-field edit yields exactly `Edited` of the stored document |
| `Users.AddressOnlyEditSucceeds` | Models/user.js:143-161 | an edit holding only a complete or an all-empty address passes every validator and the phone index, and replaces or removes the address |
| `Users.UserStore.Create` | Models/user.js:91-107 | a missing password, a failed validator (the address as `AddressValidatorPasses` reads it) or a taken email or phone gives 400 and stores nothing, with the id counter unchanged; otherwise the new document, with the next user id, is appended, the counter advances by one, and the answer is 200 with the stripped document and its token |
| `Users.UserStore.Login` | Models/user.js:110-124 | an unknown email and a wrong password both give exactly `(400, "Invalid Credential")` without a token; the answer is 200 exactly when the first user with that email has a matching password |
| `Users.UserStore.Edit` | Models/user.js:127-169 | a disallowed key gives 400 "Cannot update field: <key>" before any lookup; an unknown id gives 404 "User not found"; a partial address gives 400 and saves nothing, including name, phone and preference changes. Otherwise, for the `Edited` document: failing validators give 400 with those paths and no save; a phone held by another user gives 400 `DuplicateKey` and no save; else the document replaces the stored one and the answer is 200 with it stripped and a token |

## Left out

- Storage faults: the `catch` paths answering 500 (cart) or 400 with the error message (edit) after a driver failure are not modelled. The modelled stores never fail.
- Dangling dish references: `populate` yielding `null` makes `i.product._id` throw. This is ORM behaviour, so the catalog is a total function.
- Malformed ids: a request id or dish id that Mongoose cannot cast to an ObjectId. Every id is a valid ObjectId here.
- The `subtotal` virtual (Models/cart.js:40-42) reads `item.price`, which a line item does not have. Prices are floating-point numbers. As written it yields no real subtotal, so it is not modelled.
- The `_id` key in the lines that `getOrCreateCart` flattens is always undefined, because line items are declared without `_id`. The model's lines omit it.
- Timestamps, `__v` and the `id` virtual of the returned plain objects.
- bcrypt's salt generation and cost factor, JWT signing and verification, `isEmail` and `isMobilePhone`: these are uninterpreted `Primitives` fields and an opaque `Token`.
- JSON `null` and mistyped body values (an address given as a string, a number for a name): body fields are either absent or strings.
- Mongoose's exact error-message texts: a validation failure is reported by the set of failing paths, and a unique-index violation as `DuplicateKey`.
- `Users.UserStore.Create`: a body carrying its own `_id` is not modelled; new documents always take a fresh id.
- The authentication middleware, routes, startup and error middleware, and the restaurant and dish catalog, are not part of this model.
- Concurrent requests and lost updates between them are not modelled. Each operation runs alone.

## Findings

| source | as written | input that shows it | evidently intended | confidence | as-written member | corrected member |
|---|---|---|---|---|---|---|
| Models/cart.js:212 | `findByIdAndDelete(userId)` looks the cart up by its own `_id` using the user's id | a user 7 whose cart has id 3: clearing leaves the cart with its lines in place; in any valid store, clearing with a user id deletes no cart (`DeleteByForeignIdKeepsAll`) | delete the cart owned by the user | high, not executed | `Carts.ClearByIdMissesOwnersCart` | `Carts.CartStore.ClearCartOfOwner` |
| Models/user.js:22-24 | for a partial address `isCompleteAddress` returns the first field that is not truthy, and Mongoose counts an `undefined` result as a pass | registering with address `{ street: "1 Main" }` stores it and answers 200 | accept only an absent address or 0 or 4 given fields | medium, not executed | `Users.PartialAddressPassesAsWritten` | `Users.IsCompleteAddress` |
| Models/cart.js:213-216 | success answers with code 404 | any clear that does not fault answers 404 "User Deleted successfully" | answer 200 on success | medium, not executed | `Carts.CartStore.ClearCartForUser` | `Carts.CartStore.ClearCartOfOwner` |
