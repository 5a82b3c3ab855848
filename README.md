# products-api in Dafny

A model of the core of a small REST service for one resource, the product
(`id`, `nome`, `valor`). The model covers four layers:

- the two write-body schemas and their validation middleware,
- the error handler that turns an error into a status and a body,
- the five request handlers of the product controller, over an abstract store,
- the router's five registrations.

The proofs show what each layer promises. A final method composes the layers
the way the application wires them, and proves that a write body the
validator rejects never reaches the store.

Files, one module each:

- `wrappers.dfy` (`Wrappers`): `Option` and `Result`.
- `json.dfy` (`Json`): parsed JSON values. A missing key stands for `undefined`.
- `api.dfy` (`Api`): the product, its data-model invariant (`ProductValid`),
  the error record `{name, code, message, stack}`, schema issues, response
  bodies and the fixed response texts.
- `validation.dfy` (`Validation`): the create and update schemas, with the
  issue list that parsing collects (`ParseIssues`) and the middleware
  (`Validate`), which either calls `next()` or rejects with one 400
  response.
- `errors.dfy` (`Errors`): `ErrorHandler`, the priority-ordered
  classification into 400, 409 and 500.
- `product_model.dfy` (`ProductModel`): the store as the class
  `ProductService`. It holds a map of rows, the creation order of the rows
  and the failure each kind of call gives, if any. Its methods state the
  database client's behaviour as the store's semantics: a fresh id on
  create, a partial merge on update, a hard delete, and newest-first
  listing.
- `controller.dfy` (`Controller`): the class `ProductController`, with one
  method per handler. Each one returns `Respond(response)` or
  `Forward(error)`.
- `routes.dfy` (`Routes`): path matching, the registration table, first-match
  lookup, `RunSpec` (what the registered handler does to the store) and
  `HandleRequest`, the whole pipeline.

Inputs the program takes from its environment are parameters here:

- the id the store generates for a new row (`newId`);
- the failure each store call gives (`ProductService.faults`, fixed when the
  store is constructed).

A failing store call leaves the store unchanged. Creating a row under an id
that is already taken fails with the unique-constraint error `P2002`. That is
how a 409 arises end to end.

The schema middleware answers a rejected body itself
(`backend/src/middleware/validation.js:17-22`), with `details` set to the issue
list, and never calls the error handler.

No error produced inside the model is named `ValidationError`. The 400 branch
of the error handler is reachable only by errors from outside the modelled core.

## Model

| member | source | states |
|---|---|---|
| Validation.NomeOk | backend/src/middleware/validation.js:4 | `nome` is a string (no coercion) of length 1 to 255 |
| Validation.ValorOk | backend/src/middleware/validation.js:5 | `valor` is a number (no coercion) strictly greater than 0 |
| Validation.Accepts | backend/src/middleware/validation.js:3-11 | the schema as a predicate: an object whose `nome` and `valor` meet their rules, both required by the create schema and optional in the update schema; other keys play no part |
| Validation.ParseIssues | backend/src/middleware/validation.js:3-11 | the issue list is empty exactly when the schema accepts the body; it names `nome` (`valor`) exactly when that field is missing where required, mistyped or out of range; a non-object body gets one root issue |
| Validation.Validate | backend/src/middleware/validation.js:13-35 | the body goes on (`Next`) exactly when the schema accepts it; otherwise the single response is 400 `{error:'Dados inválidos', details}` with a non-empty issue list |
| Validation.CreateRejectsMissingOrEmptyNomeOrNonPositiveValor | backend/src/middleware/validation.js:3-22 | a create body with `nome` missing, `nome` empty or a `valor` ≤ 0 gets 400 with non-empty details |
| Validation.UpdateAcceptsEmptyBody | backend/src/middleware/validation.js:8-11 | the update middleware passes `{}` on |
| Validation.UpdateIsWeakerThanCreate | backend/src/middleware/validation.js:3-11 | every body the create schema accepts the update schema accepts; `{}` shows the converse fails |
| Validation.UpdateAcceptsPresentFieldRules | backend/src/middleware/validation.js:8-11 | update accepts an object exactly when each present field meets its create rule; `{valor:-50}` is still rejected |
| Validation.Boundaries | backend/src/middleware/validation.js:4-5 | a `nome` of length 255 passes, lengths 256 and 0 do not; `valor` 0 is not positive |
| Validation.NoCoercion | backend/src/middleware/validation.js:4-5 | a string `valor` or a numeric `nome` is rejected, not coerced |
| Validation.ExtraKeysIgnored | backend/src/middleware/validation.js:3-11 | adding a key other than `nome` and `valor` never changes the decision |
| Errors.ErrorHandler | backend/src/middleware/errorHandler.js:3-23 | total: status is 400, 409 or 500; 400 exactly for name `ValidationError` with the message as details; 409 exactly for a non-validation error with code `P2002`; otherwise 500 with only the fixed text |
| Errors.ValidationTakesPrecedence | backend/src/middleware/errorHandler.js:6-18 | an error with both the validation name and code `P2002` is answered 400 |
| Errors.MessageAndStackHidden | backend/src/middleware/errorHandler.js:13-22 | outside the validation case the response depends on name and code only, never on message or stack |
| ProductModel.WithoutSpec | backend/src/models/productModel.js:32-36 | removing a deleted id from the creation order keeps every other id and keeps the order free of duplicates |
| ProductModel.WithoutKeepsOrder | backend/src/models/productModel.js:32-36 | removing a deleted id keeps the remaining ids in their creation order: an absent id changes nothing, and otherwise exactly the position holding it is cut out |
| ProductModel.DeleteKeepsInvariant | backend/src/models/productModel.js:32-36 | deleting a row and dropping its id from the creation order keeps the store invariant (ids distinct, the order and the map naming the same ids, every row under its own id) |
| ProductModel.ListingAt | backend/src/models/productModel.js:4-8 | position k of the listing is the k-th most recently created row |
| ProductModel.ListingEnumeratesStore | backend/src/models/productModel.js:4-8 | the listing has one entry per stored row, holds every stored product, no id twice, newest first |
| ProductModel.Listing | backend/src/models/productModel.js:4-8 | the rows the creation order names, newest first, one entry per id, each a stored product |
| ProductModel.Merge | backend/src/models/productModel.js:25-30 | a partial update is the stored object spread with the supplied data (`{ ...stored, ...data }`): supplied fields take the new values, the others and the id stay |
| ProductModel.MergeIdempotent | backend/src/models/productModel.js:25-30 | applying the same update twice equals applying it once; an empty update changes nothing |
| ProductModel.CreateResult | backend/src/models/productModel.js:16-23 | create succeeds exactly when the body has a string `nome` and a numeric `valor`, the call is not failed and the id is free; the checks run in order: client refusal, then the injected failure, then `P2002`; the new row has the fresh id and the forwarded fields |
| ProductModel.UpdateResult | backend/src/models/productModel.js:25-30 | update succeeds exactly when the data holds only `nome`/`valor` with the column types, the call is not failed and the id exists; the result is the stored object spread with the data; in order: client refusal, then the injected failure, then `P2025` |
| ProductModel.DeleteResult | backend/src/models/productModel.js:32-36 | delete succeeds exactly when the call is not failed and the id exists, and returns the deleted row; otherwise the injected failure or `P2025` |
| ProductModel.CreateStoresForwardedFields | backend/src/models/productModel.js:16-23 | a created row has the fresh id and exactly the body's `nome` and `valor`; other keys of the body make no difference |
| ProductModel.ProductService.GetAllProducts | backend/src/models/productModel.js:4-8 | the list newest first, or the injected failure |
| ProductModel.ProductService.GetProductById | backend/src/models/productModel.js:10-14 | the row, absence (not an error) when there is none, or the injected failure |
| ProductModel.ProductService.CreateProduct | backend/src/models/productModel.js:16-23 | on success the new row is added under the fresh id and appended to the creation order; on any failure nothing changes |
| ProductModel.ProductService.UpdateProduct | backend/src/models/productModel.js:25-30 | on success the row is replaced by its merge with the data; a missing id fails with `P2025`; on failure nothing changes |
| ProductModel.ProductService.DeleteProduct | backend/src/models/productModel.js:32-36 | on success the row is removed from the map and the creation order; a missing id fails with `P2025`; on failure nothing changes |
| Controller.ProductController.GetAllProducts | backend/src/controllers/productController.js:5-12 | 200 with the store's listing unchanged, or the store's error forwarded |
| Controller.ProductController.GetProductById | backend/src/controllers/productController.js:14-27 | 404 `{error:'Produto não encontrado'}` when absent, 200 with the stored product otherwise, the store's error forwarded on failure |
| Controller.ProductController.CreateProduct | backend/src/controllers/productController.js:29-37 | the body goes to the store's create; 201 with exactly the product it returns, or its error forwarded with the store unchanged |
| Controller.ProductController.UpdateProduct | backend/src/controllers/productController.js:39-54 | absent id: 404 and the store unchanged; present id: update with (id, body), 200 with the merged product, or the error forwarded with the store unchanged |
| Controller.ProductController.DeleteProduct | backend/src/controllers/productController.js:56-71 | absent id: 404 and the store unchanged; present id: 204 with an empty body and the id gone, or the error forwarded with the store unchanged |
| Controller.CreateThenGet | backend/src/controllers/productController.js:14-37 | a successful create followed by a fetch of the new id answers that product, with the body's `nome` and `valor` |
| Controller.DeleteThenGet | backend/src/controllers/productController.js:14-71 | after a 204 delete, fetching the same id answers 404 |
| Controller.GetTwice | backend/src/controllers/productController.js:14-27 | two fetches of one id with no write between them answer the same |
| Routes.ParsePath | backend/src/routes/productRoutes.js:7-11 | `""` and `"/"` select the collection; an item match carries a non-empty segment with no slash, optionally followed by one slash |
| Routes.ParsePathRoundTrip | backend/src/routes/productRoutes.js:8 | parsing the written form of a match, with or without a trailing slash, gives that match back |
| Routes.FindRoute | backend/src/routes/productRoutes.js:7-11 | the result is the first registration of the table with the asked verb and pattern (none before it has them); it is absent exactly when no registration has them |
| Routes.TableUnambiguous | backend/src/routes/productRoutes.js:7-11 | no two registrations share a verb and a pattern |
| Routes.RouteTable | backend/src/routes/productRoutes.js:7-11 | GET `/`, GET `/:id` and DELETE `/:id` reach their handlers with no validator; POST `/` runs create validation before create; PUT `/:id` runs update validation before update |
| Routes.UnroutedPairs | backend/src/routes/productRoutes.js:7-11 | POST `/:id`, PUT `/`, DELETE `/` and PATCH match no registration |
| Routes.TableShape | backend/src/routes/productRoutes.js:7-11 | the item handlers sit on `/:id`, each write handler has its validator, the other handlers have none |
| Routes.AcceptedCreateStoresValidProduct | backend/src/routes/productRoutes.js:9 | a product created from a body the create schema accepted satisfies the data-model invariant |
| Routes.AcceptedUpdateKeepsProductValid | backend/src/routes/productRoutes.js:10 | merging a body the update schema accepted into a valid product gives a valid product |
| Routes.Resolve | backend/src/routes/productRoutes.js:7-11 | a request is routed exactly when its path matches a pattern and the table has a registration for its verb and that pattern; the registration is one of the table's, with the asked verb and the matched pattern, and an item handler always gets an `id` |
| Routes.Finish | backend/src/server.js:25 | a handler's own response is returned as it is; a forwarded error gets the error handler's response, status 400, 409 or 500 |
| Routes.RunSpec | backend/src/controllers/productController.js:5-71 | per handler: read handlers answer 200 or 404 and leave the store as it is; update/delete answer 404 on an absent id without touching the store; create/update/delete apply CreateResult/UpdateResult/DeleteResult; a failed call is forwarded with the store unchanged; the store invariant holds afterwards |
| Routes.RunSpecEffects | backend/src/controllers/productController.js:5-71 | of the handlers the table names, only create, update and delete change the store; a 404 or a forwarded error leaves it unchanged; a handler's own answer is 200, 201, 204 or 404 |
| Routes.RunSpecKeepsProductsValid | backend/src/routes/productRoutes.js:9-10 | a handler run on a body its registration's validator accepted keeps every stored product valid |
| Routes.RunHandler | backend/src/routes/productRoutes.js:7-11 | the matched registration's own handler runs: its answer and the new rows and creation order are exactly those `RunSpec` gives; only write handlers change the store, and validated bodies keep every stored product valid |
| Routes.HandleRequest | backend/src/server.js:22-25 | a request the router has no registration for is not handled; a routed request its validator lets through gets the registered handler's answer, with a forwarded error turned into the error handler's response, and leaves the store as `RunSpec` says; a write body the validator rejects gets the validator's 400 and the store is unchanged; any change to the store comes from a write handler whose body passed validation; all stored products stay valid; every status is one of 200, 201, 204, 400, 404, 409, 500 |

## Left out

- Logging (`logger.info`, `logger.error`) is an external side effect and is not modelled.
- Process bootstrap is not modelled: environment config, security headers, CORS, the JSON body parser, `listen` and the `/health` endpoint with its clock timestamp.
- Concurrency is not modelled. Each handler is one sequential step, so the race between the lookup and the update or delete under concurrent requests is not represented.
- `valor` is a real number. JavaScript floating point, NaN and Infinity are not modelled.
- The schema's string length is counted in Dafny characters (code points). JavaScript counts UTF-16 code units, so names with characters outside the Basic Multilingual Plane are measured differently.
- Issue objects keep only the path, the kind of failure and the schema's own messages. They omit the validation library's default messages and the other issue fields.
- The database client is modelled as the store's semantics, not as code:
  - create stores only `nome` and `valor`;
  - update overwrites only the supplied fields;
  - listing is ordered by `created_at` descending, with `created_at` replaced by creation order (rows with equal timestamps have no defined order in the database).
- ProductModel.UpdatableData: the model's store refuses any update key other than `nome` and `valor`. The database schema is not part of this model. A real client would also accept `id`, `created_at` and `updated_at`. Since validation ignores extra keys, a PUT body carrying `id` could re-key a row in the real service, which the model does not represent.
- ProductModel.ProductService: each kind of store call fails with a fixed error or never does. The scenario methods therefore cannot describe a call that fails once and later succeeds.
- Routes.ParsePath: URL decoding of `:id`, query strings, HEAD requests answered by GET routes, and Express's default 404 for unmatched requests (returned as `None`) are not modelled.
- Timestamps `created_at` and `updated_at` are not part of the product datatype.
