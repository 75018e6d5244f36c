# Product and user administration backend — Dafny model

This project models the business core of a small Spring administrative
backend. The backend serves two resources, products and users.

- **User entity** (`Users`). A user is a record with id, email, name,
  password and a `deleted` flag. It behaves as a two-state machine:
  Active, and Deleted after `destroy()`. Deleted is terminal. `changeWith`
  overwrites only the name and the password.
- **Product entity** (`Products`). A product has an id, name, maker, price
  and image URL. Its builder never sets the id. The product update is a
  full overwrite of the four data fields.
- **Product request** (`ProductRequests`). This is the create/update
  body. `toEntity` copies its fields. Its `@NotBlank`/`@NotNull`
  constraints are modelled as the predicate `Valid`.
- **User service** (`UserService`). Registration refuses an email that
  any stored user already has, deleted or not. Update and delete see only
  users that are not deleted. A missing or soft-deleted id gives
  `UserNotFound(id)`.
- **Product service** (`ProductService`). It lists, reads, creates,
  updates and deletes products. Every id-based operation looks the
  product up first and fails with `ProductNotFound(id)` before touching
  the store.
- **User controller** (`UserController`). Only the pure parts are
  modelled: the projection `getUserResultData` and the `create`/`update`
  handlers built on it.

Java references may be null; `Outcomes.Option` stands for them (`None` is
null). Exceptions become `Outcomes.Result` (`Ok` or `Err` with a
`Failure`). Each store is a `map<int, Entity>`. A service call is a pure
function returning `Step(result, store)`: what the call returned or threw,
and the store after it. When a store's `save` assigns a new id, the model
takes that id as a parameter `newId`, with the one demand the store meets:
`newId` is not already in the store. The id-assignment policy itself stays
abstract.

Files: `outcomes.dfy`, `sets.dfy` (two set facts used by the listing
loop), `users.dfy`, `products.dfy`, `product_requests.dfy`,
`user_service.dfy`, `product_service.dfy`, `user_controller.dfy`.

## Model

| member | source | states |
|---|---|---|
| Users.NewUser | app/src/main/java/com/codesoom/assignment/domain/User.java:14-30 | A freshly built user has no id, is not deleted, and holds the given email, name and password |
| Users.ChangeWith | app/src/main/java/com/codesoom/assignment/domain/User.java:32-35 | Name and password become the source's, nulls included; id, email and deleted are untouched |
| Users.Destroy | app/src/main/java/com/codesoom/assignment/domain/User.java:37-39 | After destroy the user is deleted and every other field is unchanged |
| Users.ChangeWithReadsOnlyNameAndPassword | app/src/main/java/com/codesoom/assignment/domain/User.java:32-35 | The source's id, email and deleted flag have no influence on the result |
| Users.ChangeWithLastWins | app/src/main/java/com/codesoom/assignment/domain/User.java:32-35 | Two changes in a row equal the second change alone (unconditional overwrite) |
| Users.DestroyIdempotent | app/src/main/java/com/codesoom/assignment/domain/User.java:37-39 | Destroying twice is the same as destroying once |
| Users.ChangeWithDestroyCommute | app/src/main/java/com/codesoom/assignment/domain/User.java:32-39 | The two mutators touch disjoint fields, so their order does not matter |
| Users.ReplayDeleted | app/src/main/java/com/codesoom/assignment/domain/User.java:30-39 | After any history of method calls, a user is deleted iff it started deleted or the history holds a destroy; so deletion is monotone and terminal |
| Users.ReplayKeepsIdentity | app/src/main/java/com/codesoom/assignment/domain/User.java:21-39 | No history of method calls changes a user's id or email |
| Products.Build | app/src/main/java/com/codesoom/assignment/domain/Product.java:34-40 | The constructor stores name, maker, price and image URL as given and leaves the id unset |
| Products.ChangeWithBuiltSource | app/src/main/java/com/codesoom/assignment/application/ProductService.java:53 | Overwriting with a freshly built product yields exactly the built fields (a null image URL included) under the old id |
| Products.ChangeWith | app/src/main/java/com/codesoom/assignment/application/ProductService.java:53 | The product update overwrites all four data fields with the source's, nulls included, and keeps the id |
| Products.ChangeWithForgetsOldValues | app/src/main/java/com/codesoom/assignment/application/ProductService.java:53 | The result does not depend on the product's old field values, only on its id |
| Products.ChangeWithIdempotent | app/src/main/java/com/codesoom/assignment/application/ProductService.java:53 | Applying the same update twice equals applying it once |
| ProductRequests.ToEntity | app/src/main/java/com/codesoom/assignment/dto/request/ProductRequest.java:32-39 | The entity has the request's name, maker, price and image URL, and no id |
| ProductRequests.ToEntityIgnoresId | app/src/main/java/com/codesoom/assignment/dto/request/ProductRequest.java:14-39 | The request's id is never carried into the entity: requests differing only in id give the same entity |
| ProductRequests.Trim | app/src/main/java/com/codesoom/assignment/dto/request/ProductRequest.java:17-23 | `String.trim()` as the blank check uses it: its two halves drop exactly the leading and trailing characters at or below U+0020, and something is left iff the string has a character above U+0020 |
| ProductRequests.NotBlank | app/src/main/java/com/codesoom/assignment/dto/request/ProductRequest.java:17-23 | The trim-based `@NotBlank` check holds iff the string is non-null and has a character above U+0020 |
| ProductRequests.Valid | app/src/main/java/com/codesoom/assignment/dto/request/ProductRequest.java:17-30 | A request is valid iff name and maker are non-null with a visible character and price is non-null; id and image URL are unconstrained |
| ProductRequests.NotBlankExamples | app/src/main/java/com/codesoom/assignment/dto/request/ProductRequest.java:17-23 | Null, empty and all-blank strings are blank; one visible character among spaces is not |
| ProductRequests.ValidEntityIsComplete | app/src/main/java/com/codesoom/assignment/dto/request/ProductRequest.java:17-39 | A valid request yields an entity with a visible name and maker and a non-null price; the image URL stays optional |
| UserService.EmailExists | app/src/main/java/com/codesoom/assignment/application/UserService.java:35 | The existence check answers true iff the email is in the table's email column, deleted users included |
| UserService.FindUser | app/src/main/java/com/codesoom/assignment/application/UserService.java:66-70 | The lookup succeeds iff the id is stored and not deleted, and otherwise throws UserNotFound(id) |
| UserService.RegisterUser | app/src/main/java/com/codesoom/assignment/application/UserService.java:27-41 | Fails with EmailDuplication iff some stored user has the email, with the store unchanged; otherwise saves and returns an active user with the registration's email, name and password under the new id |
| UserService.UpdateUser | app/src/main/java/com/codesoom/assignment/application/UserService.java:43-54 | Fails with UserNotFound(id) iff the id is absent or soft-deleted, with the store unchanged; otherwise only name and password change, and id and email are kept |
| UserService.DeleteUser | app/src/main/java/com/codesoom/assignment/application/UserService.java:56-64 | Fails with UserNotFound(id) iff the id is absent or soft-deleted; otherwise returns the same record marked deleted, which stays in the store |
| UserService.UpdateDeleteReturnRequestedId | app/src/main/java/com/codesoom/assignment/application/UserService.java:43-64 | On a well-formed store, update and delete return the user with the requested id |
| UserService.RegisterPreservesInvariant | app/src/main/java/com/codesoom/assignment/application/UserService.java:33-40 | Pairwise distinct emails (and ids matching keys) stay so after a registration |
| UserService.UpdatePreservesInvariant | app/src/main/java/com/codesoom/assignment/application/UserService.java:43-54 | An update keeps emails distinct and ids matching keys |
| UserService.DeletePreservesInvariant | app/src/main/java/com/codesoom/assignment/application/UserService.java:56-64 | A soft delete keeps emails distinct and ids matching keys |
| UserService.RegisterTwiceFails | app/src/main/java/com/codesoom/assignment/application/UserService.java:33-37 | Once an email is registered, registering it again fails with EmailDuplication |
| UserService.DeleteTwiceFails | app/src/main/java/com/codesoom/assignment/application/UserService.java:59-70 | Deleting the same id twice makes the second call fail with UserNotFound |
| UserService.UpdateAfterDeleteFails | app/src/main/java/com/codesoom/assignment/application/UserService.java:43-70 | A soft-deleted user can no longer be updated |
| UserService.FixtureScenarios | app/src/test/java/com/codesoom/assignment/application/UserServiceTest.java:42-186 | The service tests' cases: duplicate and fresh registration, update and delete of an active, a missing and a deleted id |
| UserService.RunPreservesInvariant | app/src/main/java/com/codesoom/assignment/application/UserService.java:27-70 | Across any sequence of registrations, updates and deletes, emails stay unique and ids match keys |
| UserService.RunKeepsDeletedUsers | app/src/main/java/com/codesoom/assignment/application/UserService.java:56-70 | No sequence of requests removes a user or alters a soft-deleted user's record |
| ProductService.FindProduct | app/src/main/java/com/codesoom/assignment/application/ProductService.java:72-75 | The lookup succeeds iff the id is stored, and otherwise throws ProductNotFound(id) |
| ProductService.GetProducts | app/src/main/java/com/codesoom/assignment/application/ProductService.java:30-32 | Each position holds the product of a distinct stored id and every stored id appears, so each stored product is listed exactly once; an empty store gives an empty list |
| ProductService.GetProduct | app/src/main/java/com/codesoom/assignment/application/ProductService.java:34-36 | Returns the stored product when the id is present, ProductNotFound(id) otherwise |
| ProductService.CreateProduct | app/src/main/java/com/codesoom/assignment/application/ProductService.java:38-46 | Always succeeds; saves and returns a product with the request's four fields under the new id |
| ProductService.UpdateProduct | app/src/main/java/com/codesoom/assignment/application/ProductService.java:48-56 | Fails with ProductNotFound(id) iff absent, store unchanged; otherwise the returned and stored product has the request's four fields and keeps its id |
| ProductService.DeleteProduct | app/src/main/java/com/codesoom/assignment/application/ProductService.java:58-64 | Fails with ProductNotFound(id) iff absent, store unchanged; otherwise returns the stored product and removes exactly that id |
| ProductService.CreateThenGet | app/src/main/java/com/codesoom/assignment/application/ProductService.java:34-46 | A created product is read back under its new id |
| ProductService.UpdateThenGet | app/src/main/java/com/codesoom/assignment/application/ProductService.java:34-56 | What an update returns is what is read back afterwards |
| ProductService.DeleteThenNotFound | app/src/main/java/com/codesoom/assignment/application/ProductService.java:58-75 | After a delete, reading, updating or deleting that id fails with ProductNotFound |
| ProductService.UpdateIdempotent | app/src/main/java/com/codesoom/assignment/application/ProductService.java:48-56 | Repeating an update with the same request changes nothing further |
| ProductService.OperationsPreserveWellFormed | app/src/main/java/com/codesoom/assignment/application/ProductService.java:38-64 | Create, update and delete keep every product stored under its own id |
| ProductService.OperationsAreLocal | app/src/main/java/com/codesoom/assignment/application/ProductService.java:38-64 | Create, update and delete leave every other stored product as it was |
| ProductService.WalkThrough | app/src/main/java/com/codesoom/assignment/application/ProductService.java:34-75 | From an empty store, creating, overwriting, deleting and re-reading one product gives the exact fields at each step and NotFound at the end |
| UserController.GetUserResultData | app/src/main/java/com/codesoom/assignment/controllers/UserController.java:50-60 | Null maps to null; otherwise the response has the user's id, email and name |
| UserController.ProjectionHidesSecrets | app/src/main/java/com/codesoom/assignment/dto/response/UserResultData.java:12-18 | The response does not depend on the password or the deleted flag |
| UserController.Create | app/src/main/java/com/codesoom/assignment/controllers/UserController.java:31-37 | Returns the projection of the registered user (new id, registration's email and name), or the EmailDuplication failure |
| UserController.Update | app/src/main/java/com/codesoom/assignment/controllers/UserController.java:39-48 | Returns the projection of the updated user (stored id and email, new name), or UserNotFound |
| UserController.HandlersKeepServiceStore | app/src/main/java/com/codesoom/assignment/controllers/UserController.java:31-48 | The handlers persist exactly what the service persists |

## Left out

- HTTP routing, status codes and the `@Valid` machinery are not modelled. Validation appears only as the predicate `ProductRequests.Valid`; the services do not demand it, as in the source.
- JPA repositories and `@Transactional` are replaced by map stores. `updateUser` and `deleteUser` never call `save`. The model persists their change as `store[id := changed]`, which is what the managed entity's dirty check does at commit.
- The store's id-assignment policy is a parameter (`newId`, not already held). `UserService.Run` takes that id from each `Register` command, and `AdmissibleRun` requires it to be unused.
- The reflection-based field mapper is replaced by explicit copies. For a product it is `ToEntity`. For registration and modification data it is `NewUser`.
- The user controller imports `UserModificationData` from the response package, while the service takes the one from the request package. The model merges both into one `ModificationData` (name, password), because the controller passes its argument straight to the service.
- `UserRegistrationData` and `UserModificationData` are not part of this model. Their fields (email, name, password; name, password) come from their use in the tests.
- `Product.changeWith` is called at `ProductService.java:53` but missing from `Product.java`. `Products.ChangeWith` takes its meaning from the update test's assertions: all four fields are overwritten. It also keeps the product's id, so the save goes to the same row. The test's mocked save always answers with id 2; that is a test artefact, not modelled.
- `findByIdAndDeletedIsFalse` is missing from `UserRepository.java`. It is modelled by its name: present and not deleted.
- The user controller has no DELETE handler, although its test expects one, so no `destroy` handler is modelled. The product controller is not part of this model.
- Ids (`Long`) and prices (`Integer`) are unbounded integers. The code only copies them and never computes with them, so width does not matter. A null id passed to a service is not modelled.
- Concurrency and last-write-wins across requests are left out. Each call is one atomic step.
- ProductService.GetProducts: fixes no order for the list, because `findAll` promises none.
- `@NotBlank` follows the trim-based check of the bean validator, which drops characters up to U+0020. It does not use `Character.isWhitespace`.
