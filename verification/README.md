# bookworm: the rules of a book-sharing app, in Dafny

This project models the rules at the centre of bookworm, a book-sharing
app made of a REST server and a mobile client.

On the server side it models two things:

- **The `/books` routes.** Create checks that every field is present, uploads
  the image and saves the record. There is a paginated listing and a listing
  of the requester's own books. Delete is gated on ownership and destroys the
  hosted image on a best-effort basis.
- **The `protectRoute` middleware.** It decides from the `Authorization`
  header whether a request reaches a protected route.

On the client side it models:

- the auth slice (one field: the current user) and its `login` and
  `register` thunks;
- the store middleware that logs out on an errored action carrying status 401;
- the navigation gate that redirects between the auth screens and the tabs;
- the HTTP instance's interceptors: the bearer token goes out on requests,
  and a 401 response drops the token;
- the API wrappers' paths, results and normalised errors;
- the form schemas for login, signup and creating a book.

The model has one module per source file:

| module | file |
|---|---|
| `BookRoutes` | `book_routes.dfy` |
| `AuthMiddleware` | `auth_middleware.dfy` |
| `AuthSlice` | `auth_slice.dfy` |
| `StoreMiddleware` | `store_middleware.dfy` |
| `RootNavigation` | `root_navigation.dfy` |
| `ApiConfig` | `api_config.dfy` |
| `Api` | `api.dfy` |
| `Validation` | `validation.dfy` |

Two more modules are shared:

- `Common` holds the optional and result values and the user profile. It
  also models JavaScript's one-character `split`, with its inverse `join`,
  and the decimal rendering of numbers in template strings.
- `SecureStorage` is the device's token slot.

State that the source changes in place is kept in classes:

- `BookRoutes.BookStore` is the document collection. It holds a map from
  id to book, the store order, and logs of the image host's uploads and
  destroys.
- `AuthMiddleware.Request` is the request whose `user` field the
  middleware sets.
- `AuthSlice.State` is the auth slice.
- `StoreMiddleware.Store` is the store, with its log of the actions
  forwarded to `next`.
- `ApiConfig.RequestConfig` is the config that the request interceptor
  edits.
- `SecureStorage.TokenSlot` is the token slot.

Every method of these classes states the complete new state. Pure rules
are functions, and lemmas state their properties.

Foreign services enter as parameters:

- the image host's upload answer;
- the id the store generates for a new record, and the store's clock;
- token verification and user lookup;
- the network (`transport`);
- the email-format check.

The image host's destroy answer does not matter, because the handler
swallows it. The model therefore only logs the call.

## Model

| member | source | states |
|---|---|---|
| `BookRoutes.BookStore.Create` | backend/src/routes/bookRoutes.js:7-25 | A falsy title, caption, image or rating (`""`, absent, rating 0) gives 400 "All fields are required"; nothing is uploaded and nothing is stored. Otherwise the image is uploaded exactly once. A failed upload gives 500 with the host's message and leaves the store unchanged. A taken id gives 500 and leaves the store unchanged. Otherwise exactly one record is added under the new id, with the uploaded secure URL as `image`, the requester as `user` and the store's clock as `createdAt`. It goes at the end of the store order, and the answer is 201 with the record. No destroy is issued |
| `BookRoutes.BookStore.constructor` | backend/src/routes/bookRoutes.js:2 | The collection starts empty and consistent: no records, an empty store order, and no upload or destroy calls |
| `BookRoutes.HasRequiredFields` | backend/src/routes/bookRoutes.js:10 | The body passes exactly when title, caption and image are present and non-empty and the rating is present and non-zero (the JavaScript truthiness of each field) |
| `BookRoutes.Skip` | backend/src/routes/bookRoutes.js:43 | The skip count is non-negative for pages from 1, and negative exactly for pages before 1 |
| `BookRoutes.TotalPages` | backend/src/routes/bookRoutes.js:46-47 | `ceil(total/limit)` is the least `n` with `n*limit >= total` |
| `BookRoutes.PageOf` | backend/src/routes/bookRoutes.js:42-44 | A page holds at most `limit` records: exactly `min(limit, total-skip)` of them, which are the records after the skipped ones, in store order |
| `BookRoutes.EveryRecordOnItsPage` | backend/src/routes/bookRoutes.js:41-47 | Record `i` is on page `i/limit+1`, at position `i%limit`, and that page is within `totalPages`, so paging from 1 to `totalPages` misses no record |
| `BookRoutes.PageEmptyIffPastEnd` | backend/src/routes/bookRoutes.js:41-47 | A page is empty exactly when its number is past `totalPages` |
| `BookRoutes.BookStore.ListPage` | backend/src/routes/bookRoutes.js:39-53 | Defaults are page 1 and limit 5. A page before 1 makes the store refuse the negative skip, which gives 500. Otherwise the answer is 200 with that page of the store order, `currentPage` echoed, `totalBooks` equal to the record count, and `totalPages = TotalPages(total, limit)` |
| `BookRoutes.OwnedBy` | backend/src/routes/bookRoutes.js:30 | Keeps exactly the owner's records, each as often as it occurs in the store, and no others |
| `BookRoutes.InsertNewest` | backend/src/routes/bookRoutes.js:30 | Inserting into a newest-first sequence keeps it newest-first and adds exactly that record |
| `BookRoutes.SortNewestFirst` | backend/src/routes/bookRoutes.js:30 | The sort by `createdAt: -1` is newest first and a permutation of its input |
| `BookRoutes.BookStore.ListByOwner` | backend/src/routes/bookRoutes.js:28-36 | 200 with exactly the requester's records, each as often as in the store, with `createdAt` non-increasing |
| `BookRoutes.PublicId` | backend/src/routes/bookRoutes.js:73-75 | The public id contains neither `/` nor `.` |
| `BookRoutes.PublicIdIsFileStem` | backend/src/routes/bookRoutes.js:73-75 | The file part is the suffix after the last `/` (or the whole URL when there is no `/`). The public id is the prefix of the file part up to its first `.` (or all of it when there is no `.`) |
| `BookRoutes.PublicIdOfHostedUrl` | backend/src/routes/bookRoutes.js:72-75 | For any URL `<segments>/<name>.<ext>` of the host's shape, the public id is `<name>` |
| `BookRoutes.DestroyCalls` | backend/src/routes/bookRoutes.js:70-79 | Destroy is called at most once: exactly when the image URL and its public id are both non-empty, and always with that public id |
| `BookRoutes.BookStore.Delete` | backend/src/routes/bookRoutes.js:56-91 | An unknown id gives 404 "Book not found" and another user's record gives 401 "Unauthorized"; in both cases the store is unchanged and no destroy is attempted. The owner's delete removes exactly that record from the map and from the store order, issues `DestroyCalls(image)`, and gives 200 whatever the host answers to the destroy. The store order after the delete is the old order with that one id cut out, so every other record keeps its place in the listing |
| `BookRoutes.Without` | backend/src/routes/bookRoutes.js:85 | Removing an id from the store order keeps every other id, drops that one, and keeps ids unique |
| `BookRoutes.WithoutAt` | backend/src/routes/bookRoutes.js:85 | Removing the id at position `k` of a duplicate-free order gives exactly the ids before `k` followed by the ids after `k`, in their old order |
| `BookRoutes.WithoutLength` | backend/src/routes/bookRoutes.js:85 | Removing an id that is present shortens the store order by exactly one |
| `BookRoutes.OwnerDeleteFrame` | backend/src/routes/bookRoutes.js:85 | After an owner delete every other record is unchanged and the store holds one record fewer |
| `Common.Split` | backend/src/routes/bookRoutes.js:73 | `split` with a one-character separator gives at least one field, and no field contains the separator |
| `Common.JoinSplit` | backend/src/routes/bookRoutes.js:73 | Joining the fields of a split gives back the string |
| `Common.SplitJoin` | backend/src/routes/bookRoutes.js:75 | Splitting a join of separator-free fields gives back the fields |
| `Common.LastField` | backend/src/routes/bookRoutes.js:74 | The last field is the longest suffix without the separator |
| `Common.FirstField` | backend/src/routes/bookRoutes.js:75 | The first field is the longest prefix without the separator |
| `Common.SplitHasSecondField` | backend/src/middlewares/auth.middleware.js:6 | There is a second field exactly when the separator occurs |
| `Common.SplitAfterFirst` | backend/src/middlewares/auth.middleware.js:6 | The fields after the first are the fields of the text after the first separator |
| `Common.Decimal` | mobile/services/api.js:43 | A number renders as a non-empty string of digits without a leading zero |
| `Common.ParseDecimalOfDecimal` | mobile/services/api.js:43 | Reading a rendered number back gives the number |
| `AuthMiddleware.ExtractToken` | backend/src/middlewares/auth.middleware.js:6 | A missing header is exactly the case where the split throws. A token that is present has no space in it |
| `AuthMiddleware.ExtractTokenIsSecondField` | backend/src/middlewares/auth.middleware.js:6 | There is no token exactly when the header has no space. Otherwise the token starts right after the first space and runs to the next space or to the end. The scheme word is not checked |
| `AuthMiddleware.ExtractTokenExamples` | backend/src/middlewares/auth.middleware.js:6-9 | `"Basic abc"` gives `abc`; `"Bearer"` gives no token; `"Bearer "` gives the empty token; a missing header throws |
| `AuthMiddleware.Decide` | backend/src/middlewares/auth.middleware.js:4-21 | Every rejection is a 401 with "Unauthorized" or "Token is not valid" |
| `AuthMiddleware.NextOnlyForResolvedUser` | backend/src/middlewares/auth.middleware.js:9-16 | `next` is reached exactly when the token is non-empty, verifies, and names an existing user; the request then carries that user |
| `AuthMiddleware.RejectionReasons` | backend/src/middlewares/auth.middleware.js:6-19 | Missing header: 401 "Token is not valid". No token or an empty one: 401 "Unauthorized". Failed verification: 401 "Token is not valid". Unknown user: 401 "Unauthorized" |
| `AuthMiddleware.ProtectRoute` | backend/src/middlewares/auth.middleware.js:4-21 | The step-by-step handler answers with `Decide`'s status and message and leaves `req.user` alone when it rejects. Otherwise it sets `req.user` to the user and calls `next` |
| `AuthSlice.Reduce` | mobile/store/slices/authSlice.js:31-47 | Only `setUser`, `logout` and the two fulfilled thunks can change the user, and a fulfilled login or registration always leaves its user signed in |
| `AuthSlice.State.SelectCurrentUser` | mobile/store/slices/authSlice.js:53 | The selector reads the slice's `user` field, which `RootNavigation.Redirect` takes as its argument |
| `AuthSlice.State.constructor` | mobile/store/slices/authSlice.js:5-7 | The initial state has no user |
| `AuthSlice.State.SetUser` | mobile/store/slices/authSlice.js:32-34 | The user becomes the payload; the state has no other field |
| `AuthSlice.State.Logout` | mobile/store/slices/authSlice.js:35-37 | The user becomes null |
| `AuthSlice.State.Fulfilled` | mobile/store/slices/authSlice.js:41-46 | `login.fulfilled` and `register.fulfilled` set the user to the payload |
| `AuthSlice.State.Apply` | mobile/store/slices/authSlice.js:28-48 | Running the reducer in place leaves `user == Reduce(old user, action)` |
| `AuthSlice.LogoutIdempotent` | mobile/store/slices/authSlice.js:35-37 | Logging out twice equals logging out once, and leaves no user |
| `AuthSlice.UnhandledActionsKeepUser` | mobile/store/slices/authSlice.js:31-47 | Every action other than the four handled ones, rejections included, leaves the user unchanged |
| `AuthSlice.LoginThunk` | mobile/store/slices/authSlice.js:10-17 | The request goes to `/auth/login` through the API wrapper. On success the token from the response is saved, and the thunk then fulfils with the user alone. On failure the thunk saves nothing and rejects with the normalised error's message; the request itself has emptied the token slot when the server answered 401, and otherwise the slot is unchanged |
| `AuthSlice.RegisterThunk` | mobile/store/slices/authSlice.js:19-26 | Same as login, with the request to `/auth/register` |
| `StoreMiddleware.TriggersLogout` | mobile/store/middleware/authMiddleware.js:4 | Only an action from outside the auth slice can trigger a logout |
| `StoreMiddleware.OnlyForeignErrorsTriggerLogout` | mobile/store/middleware/authMiddleware.js:4 | Logout is triggered exactly by an errored action whose payload has status 401. The slice's own actions never trigger it, not even a rejected login or register, which carries no payload. After such an action the reducer leaves no user |
| `StoreMiddleware.Store.Dispatch` | mobile/store/middleware/authMiddleware.js:3-9 | The action is forwarded to `next` exactly once and unchanged, and its result is returned. When the action triggers logout, a `logout` is forwarded first, and the user ends as the reducer leaves it after that logout. Otherwise the user is whatever the reducer makes of the action |
| `StoreMiddleware.Store.Next` | mobile/store/middleware/authMiddleware.js:8 | `next` logs the action, applies the reducer and returns the action |
| `RootNavigation.InAuthGroup` | mobile/components/RootNavigation.jsx:17 | An empty location is outside the auth group; a location is inside it only when its first segment is `(auth)` |
| `RootNavigation.Redirect` | mobile/components/RootNavigation.jsx:17-29 | A redirect happens exactly when (user present) equals (first segment is `(auth)`), and an empty segment list is outside the auth group. A signed-in user is sent to `/(tabs)` and an anonymous one to `/(auth)` |
| `RootNavigation.RedirectIsStable` | mobile/components/RootNavigation.jsx:23-29 | Once the location is in the target's group, the gate does not redirect again |
| `RootNavigation.UnauthorizedLeadsToAuthScreens` | mobile/components/RootNavigation.jsx:26-28 | After a 401 error action has passed the middleware, a location outside the auth group is redirected to `/(auth)` |
| `SecureStorage.TokenSlot.Save` | mobile/utils/secureStorage.js:5-7 | The slot holds the saved token |
| `SecureStorage.TokenSlot.Get` | mobile/utils/secureStorage.js:9-11 | Reading returns the slot's content and changes nothing |
| `SecureStorage.TokenSlot.Delete` | mobile/utils/secureStorage.js:13-15 | The slot is empty |
| `ApiConfig.RequestConfig.constructor` | mobile/services/apiConfig.js:7-12 | The instance's own headers are `Content-Type: application/json` and no other; every request config starts from them |
| `ApiConfig.OutgoingHeadersShape` | mobile/services/apiConfig.js:9-21 | Of the headers the instance itself sets, a request config always declares JSON and carries `Authorization: Bearer <token>` exactly when the token is truthy; these are the only headers the instance and its interceptor set |
| `ApiConfig.OutgoingHeaders` | mobile/services/apiConfig.js:9-21 | The config after the request interceptor keeps every default header and has an `Authorization` header exactly when the token is truthy |
| `ApiConfig.AttachToken` | mobile/services/apiConfig.js:15-26 | A truthy token sets `Authorization` to `"Bearer " + token`. A null or empty token leaves the headers as they were |
| `ApiConfig.OnResponseError` | mobile/services/apiConfig.js:31-37 | A 401 response empties the token slot. Any other error, including one without a response, leaves the slot unchanged. Every error is rejected again, unchanged |
| `ApiConfig.Send` | mobile/services/apiConfig.js:15-38 | The exchange sees the headers built from the token held before the call. A successful response passes through unchanged, and the slot is emptied exactly on a 401 error |
| `Api.NormaliseError` | mobile/services/api.js:15-18 | The message is the server's `message` when it is truthy, and the error's own message otherwise. The status is the response status, absent exactly when there is no response |
| `Api.NormalisedStatusMatchesInterceptor` | mobile/services/api.js:17 | The thrown error has status 401 exactly when the interceptor treated the error as a 401 |
| `Api.Settle` | mobile/services/api.js:42-50 | Success gives `response.data` unchanged; failure gives the normalised error |
| `Api.GetBooksUrl` | mobile/services/api.js:43 | The `getBooks` path is `/books` followed by a single query string holding the page and the limit |
| `Api.GetBooksUrlCarriesPageAndLimit` | mobile/services/api.js:41-43 | The `getBooks` path is `/books` with exactly the query fields `page` and `limit`, in that order, and their values read back as the numbers sent |
| `Api.DeleteBookUrl` | mobile/services/api.js:84 | For an id without `/`, the `deleteBook` path splits into exactly `""`, `books` and the id, as the server's `/books/:id` route expects |
| `Api.Call` | mobile/services/api.js:7-19 | A wrapper's result is `Settle` of the exchange, and the token slot is emptied exactly when the thrown error has status 401 |
| `Api.Register` | mobile/services/api.js:7-20 | Requests `/auth/register` and settles as `Call`: the response body on success, the normalised error on failure, with the slot emptied exactly on a thrown 401 |
| `Api.Login` | mobile/services/api.js:23-35 | Requests `/auth/login` and settles as `Call` |
| `Api.GetBooks` | mobile/services/api.js:41-51 | Requests `/books?page=<page>&limit=<limit>` (defaults 1 and 5) and settles as `Call` |
| `Api.DeleteBook` | mobile/services/api.js:82-94 | Requests `/books/<bookId>` and settles as `Call` |
| `Validation.Rule` | mobile/utils/validation.js:11 | A failing rule reports exactly its own message for its field; a passing rule reports nothing |
| `Validation.EmailIssues` | mobile/utils/validation.js:5-8 | The email is accepted exactly when it is well-formed and non-empty. Each failing rule reports its own message |
| `Validation.PasswordIssues` | mobile/utils/validation.js:9-12 | The password is accepted exactly when it has at least 6 characters. "Password must be at least 6 characters" is reported exactly below 6, and "Password is required" exactly when it is empty |
| `Validation.LoginIssues` | mobile/utils/validation.js:4-13 | Login is accepted exactly when the email is well-formed and non-empty and the password has at least 6 characters |
| `Validation.SignupIssues` | mobile/utils/validation.js:16-29 | Signup is accepted exactly when the username has at least 2 characters, the email is well-formed and non-empty, and the password has at least 6 characters. Each username rule reports its own message |
| `Validation.CreateBookIssues` | mobile/utils/validation.js:31-35 | Create-book is accepted exactly when the title is non-empty, the caption has at least 10 characters and 1 ≤ rating ≤ 5. Each rule reports its own message |
| `Validation.PasswordRequiredImpliedByMinimum` | mobile/utils/validation.js:9-12 | "Password is required" never fires without the minimum-length issue. An empty password reports 2 issues, a short one 1, and a long enough one none |
| `Validation.RatingBoundsExamples` | mobile/utils/validation.js:34 | Ratings 0 and 6 are refused, each with its bound's message |
| `Validation.AcceptedBookPassesServerCheck` | mobile/utils/validation.js:31-35 | A book the schema accepts, sent with a non-empty image, passes the server's required-field check at backend/src/routes/bookRoutes.js:10 |

## Left out

- `BookRoutes.BookStore.ListPage` requires `limit > 0`. A limit of 0, non-numeric query values (NaN) and `currentPage` being echoed as a string are not modelled. Page and limit are integers, and `Math.ceil` is integer ceiling.
- `BookRoutes.BookStore.ListPage` returns each book with its owner's id. The `populate` of the owner's username and profile image is a store-side join and is not modelled.
- `BookRoutes.SortNewestFirst` keeps records with equal `createdAt` in store order. The store's sort promises no order among equal keys, so the model is one of the orders it may return.
- `BookRoutes.BookStore.Create` and `BookRoutes.BookStore.ListPage` answer a store error with the constants `DuplicateKey` and `NegativeSkip`. These stand for the store's own message, which the handler echoes and which is longer (it names the collection, the key or the value).
- `BookRoutes.BookStore.ListPage` lists records in insertion order when no sort is given. The store does not promise that order; the model takes it as the store's natural order.
- `BookRoutes.BookStore.Create` fails only on a failed upload or a taken id. Other save failures are not modelled, because the book schema's own validation lives in the model file (`backend/src/models/Book.js`), which is not part of this model. The rating is an integer: a fractional or string rating is not modelled.
- `BookRoutes.BookStore.Delete` takes the id as a plain string. A malformed id, which makes the store's lookup throw and the handler answer 500, is not modelled, and neither are store failures during lookup or removal.
- The model does not show `protectRoute` running in front of the create, owner-listing and delete handlers. Those handlers take the requester's id, which is what the middleware attaches.
- `AuthMiddleware.Decide`: a user lookup that throws (a store failure, caught and answered 401 "Token is not valid") is not modelled. The lookup answers "found" or "not found".
- `AuthSlice.LoginThunk` and `AuthSlice.RegisterThunk` rely on Redux Toolkit's `createAsyncThunk`. When a thunk throws, the rejected action carries only the error's message and no payload. That is why `StoreMiddleware.OnlyForeignErrorsTriggerLogout` shows that a failed login never triggers the middleware.
- The logout reducer does not touch the token. The token is removed in two places: by the profile screen before it dispatches `logout` (`mobile/app/(tabs)/profile.jsx:50-53`, not part of this model), and by the response interceptor on a 401.
- `Api.Call`: the network (`transport`) sees the path and the headers. The HTTP verb, the request body (credentials, registration data, the new book) and the instance's base URL are not modelled. `getUserBooks` and `createBook` have the same shape as `Call`, with the paths `UserBooksPath` and `BooksPath`.
- `AuthSlice.LoginThunk` and `AuthSlice.RegisterThunk` read `user` and `token` from the response body through the parameter `asAuth`. A body without them (which would save an undefined token) is not modelled.
- `ApiConfig.RequestConfig.constructor` and `ApiConfig.OutgoingHeadersShape` cover only the headers the instance and its interceptor set. The HTTP library adds its own default headers (such as `Accept`) and drops `Content-Type` on requests without a body; neither is modelled.
- `Validation`: the email-format rule of the schema library is a parameter. String lengths count Dafny characters (Unicode scalar values), whereas the schema counts UTF-16 code units. The rating messages are the schema library's default messages.
- Not modelled:
  - the image host's and the store's internals;
  - token signing and verification, and the password hashing;
  - async interleavings;
  - persisted-state rehydration and the scheduling of the navigation effect;
  - all logging;
  - server start-up, the database connection and cron (`backend/src/index.js`, `backend/src/lib/db.js`);
  - the UI layouts and toasts.
- The infinite-scroll feed (page merge with de-duplication and in-flight flags) lives in screen code that is not part of this model.
- Delete destroys the public id exactly as extracted from the URL. The upload places images in the folder `books` (backend/src/routes/bookRoutes.js:14). Whether the host's id for such an image includes that folder is a fact about the image host, so it is outside this model.
