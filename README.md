# Campus second-hand marketplace — a Dafny model of its rules

The platform is an Express/Mongoose backend and a Vue/Pinia frontend. Students publish
second-hand items ("products") and posts. They register and sign in with a JWT, and an
administrator may remove any product. This project models, in Dafny, the rules that decide
what happens to a request and to the client's state:

- the two request gates: the JWT gate, and the JWT gate with an admin role check;
- the registration, login and profile validation cascades;
- the Mongoose schemas of users and products, their defaults and their pre-save hooks;
- the product, post and user handlers over an in-memory store (`Store.Db`: one map per
  collection, plus an id counter);
- the image-path rewriting, and the upload filename rule;
- the axios interceptors;
- the product store, the user store and the navigation guard of the frontend.

Library and platform behaviour is modelled explicitly:

- **JavaScript:** truthiness, `===`, object spread, `String.prototype.replace` with a string
  pattern, `trim`, and `split('.').pop()`.
- **bcrypt:** a symbolic stand-in for the hash. `compare(p, hash(p))` holds. The stand-in is
  injective, which bcryptjs is not: it reads only the first 72 UTF-8 bytes of a password (see
  "Left out").
- **JWT:** a token that carries the id and the expiry in seconds. It is valid for one hour.

Each handler is a method on the store. Its postcondition gives the status, the
response, and the whole new state. The lemmas relate these to the source's promises.

## Model

| member | source | states |
|---|---|---|
| Text.TrimStartShape | backend/models/Product.js:7 | trimming the start removes exactly a leading run of white space and leaves a suffix |
| Text.TrimEndShape | backend/models/Product.js:13 | trimming the end removes exactly a trailing run of white space and leaves a prefix |
| Text.TrimShape | backend/models/Product.js:7 | the `trim` setter keeps an infix with white space only outside it and none at its ends |
| Text.TrimFixedIff | backend/models/Product.js:7 | trim leaves a string unchanged iff neither end is white space |
| Text.TrimIdempotent | backend/models/Product.js:13 | trimming twice equals trimming once |
| Text.IndexOf | backend/middleware/auth.js:10 | the first occurrence of the pattern, or none when it occurs nowhere |
| Text.ShiftOccurrence | backend/middleware/auth.js:10 | occurrences in a string past position 0 are the occurrences in its tail, shifted by one |
| Text.PrefixRemovedByReplaceFirst | backend/middleware/auth.js:10 | replacing the first occurrence of `pat` in `pat + t` by nothing gives `t` |
| Text.LastSegment | backend/routes/upload.js:13 | `split(sep).pop()` has no separator, is a suffix, and is the whole string or follows a separator |
| Text.LastSegmentAfter | backend/routes/upload.js:13-14 | the last segment of `a + sep + e` is `e` when `e` has no separator |
| Text.DigitChar | backend/routes/upload.js:14 | a decimal digit character has the given value |
| Text.Digits | backend/routes/upload.js:14 | the decimal text of a number is non-empty and all digits |
| Text.ParseDigitsOfDigits | backend/routes/upload.js:14 | reading back the decimal text of `n` gives `n` |
| Text.CountAppend | backend/controllers/auth.js:26 | the count of a character in `a + b` is the sum of its counts |
| Text.CountAbsent | backend/controllers/auth.js:26 | a character counts zero times iff it does not occur |
| Json.Or | frontend/src/stores/user.js:27-34 | `o.k \|\| fallback` is `o.k` when that is truthy, else the fallback |
| Json.Spread | frontend/src/stores/user.js:48 | `{...a, ...b}` has the keys of both, and `b` wins on shared keys |
| Bcrypt.CompareAcceptsHash | backend/controllers/auth.js:87 | `compare(p, hash(p))` holds |
| Bcrypt.HashInjective | backend/controllers/auth.js:87 | the stand-in's equal hashes come from equal plaintexts (bcryptjs only compares the first 72 bytes) |
| Bcrypt.HashIsNotPlaintext | backend/models/User.js:59 | a hash never equals its plaintext |
| Bcrypt.CompareRejectsRehash | backend/controllers/user.js:138-139 | `compare(p, hash(hash(p)))` fails |
| Jwt.DecodeEncode | backend/controllers/auth.js:48 | decoding an encoded payload gives it back |
| Jwt.Sign | backend/controllers/auth.js:48 | a signed token decodes to the id and an expiry one hour after the signing second |
| Jwt.Verify | backend/middleware/auth.js:11 | verification accepts exactly the decodable, unexpired tokens and yields their payload |
| Jwt.VerifySigned | backend/controllers/auth.js:93 | a login token is accepted with the user's id within its hour |
| Jwt.VerifyExpired | backend/middleware/auth.js:14-16 | a token is rejected once its hour is up |
| Jwt.AcceptedThenExpired | backend/controllers/auth.js:48 | a token is accepted a minute after issue and rejected one second after expiry |
| Email.CountSplit | backend/controllers/auth.js:26 | the `@` count splits around a position |
| Email.MatchesImpliesWellFormed | backend/controllers/auth.js:26 | a string matching `^[^\s@]+@[^\s@]+\.[^\s@]+$` has no white space and exactly one `@` between a non-empty local part and a dotted domain |
| Email.WellFormedImpliesMatches | backend/controllers/auth.js:26 | such a string matches the pattern |
| Email.MatchesIffWellFormed | backend/controllers/auth.js:26 | the pattern holds iff there is no white space, exactly one `@`, a local part and a domain with text on both sides of a dot |
| Email.MatchesImpliesSchemaValid | backend/models/User.js:26-30 | every address the controller accepts passes the schema's `match` |
| Email.LooseAcceptsWhatStrictRejects | backend/models/User.js:29 | the schema's unanchored pattern accepts `a b@c@d.e`, which the controller rejects |
| Query.NewestExists | backend/routes/product.js:62 | a non-empty set of documents has a newest one |
| Query.AppendNewest | backend/routes/product.js:62 | listing a newest remaining document next keeps the list distinct and newest first |
| Query.FindSorted | backend/routes/product.js:61-62 | `find(filter).sort({createdAt: -1})` returns each matching id once, newest first |
| ProductModel.DraftProperties | backend/models/Product.js:51-60 | a new product belongs to the requester, is `available`, is trimmed, and keeps the image array or wraps a single path |
| ProductModel.PreSaveOnlyStamps | backend/models/Product.js:72-75 | saving sets `updatedAt` to now, changes no other field, and keeps a stored document storable |
| ProductModel.CategoriesDistinct | backend/models/Product.js:24-41 | the category enum has sixteen distinct values |
| UserModel.NewDefaults | backend/models/User.js:14-35 | a new user has role `user`, nickname `新用户`, and empty avatar and qq |
| UserModel.PreSave | backend/models/User.js:51-61 | saving stamps `updatedAt`, hashes the password iff it was modified, and changes nothing else |
| UserModel.PreSaveKeepsValid | backend/models/User.js:31-35 | saving keeps required fields, the role enum and the e-mail pattern satisfied |
| Store.PutUser | backend/models/User.js:5-9 | storing a valid user under an unchanged or unused username keeps usernames unique |
| Store.PutProduct | backend/models/Product.js:3-69 | storing a storable product keeps the collection valid |
| Store.Db.NewId | backend/controllers/auth.js:44-45 | a fresh id is in no collection, and the store stays valid |
| Store.Db.AddProduct | backend/routes/product.js:19-29 | saving a storable product adds it under a fresh id and changes no other product |
| Store.Db.RemoveProduct | backend/routes/product.js:189-197 | `findByIdAndDelete` removes that product only and keeps the store valid |
| Store.Db.ReplaceUser | backend/routes/product.js:208-210 | updating a user in place under its own username replaces that user only and keeps usernames unique |
| AuthGate.BearerTokenOfHeader | backend/middleware/auth.js:10 | the token taken from `Bearer <t>` is `t` |
| AuthGate.Check | backend/middleware/auth.js:5-16 | admitted iff a non-empty header carries a verifying token; otherwise 401 |
| AuthGate.Authenticate | backend/middleware/auth.js:5-16 | on admission `req.user` is the payload and `next` is called once with no response; else 401 and no `next` |
| AuthGate.SignedHeaderAdmitted | backend/middleware/auth.js:10-13 | a signed token sent as `Bearer` is admitted with its claims within the hour, 401 afterwards |
| AuthGate.OtherSchemeKept | backend/middleware/auth.js:10 | only the first `Bearer ` is removed: a different scheme in front of it (`Token Bearer 5`) stays in the token |
| AdminGate.Check | backend/middleware/admin.js:5-25 | 401 as the plain gate, 403 for a missing or non-admin user, else admitted |
| AdminGate.AdminAdmitsOnlyAuthenticated | backend/middleware/admin.js:5-22 | whatever the admin gate admits, the plain gate admits with the same claims |
| AdminGate.Authorize | backend/middleware/admin.js:5-25 | runs the admin gate, with `req.user` and one `next` only on admission |
| Validation.Decide | backend/middleware/validation.js:16-26 | `next` iff there are no errors; otherwise 400 with a non-empty list |
| Validation.ValidatorLength | backend/middleware/validation.js:5-10 | `isLength` measures at most the code-point length, and exactly that iff no presentation selector occurs |
| Validation.ValidatorLengthCounts | backend/middleware/validation.js:5-10 | the measured length is the code-point length less the counts of U+FE0E and U+FE0F |
| Validation.SelectorMakesUsernameShort | backend/middleware/validation.js:5-6 | the three-character username `ab` + U+FE0F measures 2, below the minimum |
| Validation.RegisterPassesIff | backend/middleware/validation.js:3-26 | register passes iff the username measures 3-16, the password at least 6, and the e-mail is present and accepted |
| Validation.MissingUsernameReportedTwice | backend/middleware/validation.js:4-6 | a missing username is reported by both validators of its chain |
| Validation.LoginPassesIff | backend/middleware/validation.js:29-43 | login passes iff both fields are non-empty |
| AuthController.AcceptedIff | backend/controllers/auth.js:11-41 | a registration goes through iff all six checks pass |
| AuthController.FormChecksPrecedeStoreChecks | backend/controllers/auth.js:11-41 | form failures do not depend on the store, and a clash is reported only for a well-formed body |
| AuthController.ValidatedBodyPassesFormChecks | backend/controllers/auth.js:11-23 | after the validation middleware, the missing-field and password-length checks never fire, and the username-length check fires only for a name holding a presentation selector |
| AuthController.RegisteredProperties | backend/controllers/auth.js:44-45 | the saved user has the given username and e-mail, the defaults, and a hash of the password |
| AuthController.Register | backend/controllers/auth.js:6-63 | 400 with the first failed check and nothing stored, or 201 with exactly one new user and a one-hour token for it |
| AuthController.Login | backend/controllers/auth.js:71-108 | 400 for a missing field, 404 for an unknown user, 400 for a wrong password, else 200 with a token; the store is not modified |
| UserController.ValidateUpdateFields | backend/controllers/user.js:9-25 | `null` iff no field is bad; each key is reported iff its field is given and bad |
| UserController.ProfileUpdateKeepsAccount | backend/controllers/user.js:42-46 | a profile update keeps the credentials, the role and a valid e-mail |
| UserController.UpdateProfile | backend/controllers/user.js:28-52 | 400 and nothing changed on a validation error; else 200, and only the requester's given fields and timestamp change |
| UserController.UploadAvatar | backend/controllers/user.js:87-118 | 400 without a file, 404 for a missing user, else the avatar becomes `/avatars/<filename>` |
| UserController.ChangePassword | backend/controllers/user.js:126-146 | 500 where the handler throws (no user, no current password, or a correct current password with no new one), 400 with the hash unchanged for a wrong password, else the stored password is `hash(hash(new))` |
| UserController.ChangedPasswordRejected | backend/controllers/user.js:138-139 | after a change as written, login with the new password fails |
| UserController.ChangePasswordHashedOnce | backend/controllers/user.js:138-139 | the intended change stores `hash(new)`, so the new password is accepted |
| UserController.ChangedOncePasswordAccepted | backend/models/User.js:57-61 | assigning the plaintext and letting the hook hash it makes `compare(new, stored)` hold |
| ProductRoutes.MyImage | backend/routes/product.js:68-70 | `/my` changes a path exactly when it starts with `uploads/`, only by a leading `/`, and never yields a path starting with `uploads/` |
| ProductRoutes.DetailImage | backend/routes/product.js:101 | the detail view puts `/uploads/` before every path |
| ProductRoutes.StripUploads | backend/routes/product.js:215 | the result is the path with nothing or its first 8 characters cut, and it differs from the path exactly when that starts with `uploads/` or `uploads\` |
| ProductRoutes.MyImageIdempotent | backend/routes/product.js:68-70 | rewriting a `/my` path again changes nothing |
| ProductRoutes.DetailIsListOfUploadsRelative | backend/routes/product.js:68-101 | the detail path of `p` is the list path of `uploads/p` |
| ProductRoutes.StripUndoesUploadsPrefix | backend/routes/product.js:215 | stripping `uploads/p` or `uploads\p` gives `p` |
| ProductRoutes.ViewsDisagreeOnUploadsPath | backend/routes/product.js:68-101 | for `uploads/x` the list shows `/uploads/x`, while the detail view shows `/uploads/uploads/x` |
| ProductRoutes.UploadUrlKeptByListOnly | backend/routes/upload.js:39 | the uploaded URL is kept by the list, doubled by the detail view, and not stripped by delete |
| ProductRoutes.MapImages | backend/routes/product.js:68 | mapping keeps length and order and rewrites each path |
| ProductRoutes.Pull | backend/routes/product.js:208-210 | `$pull` removes every occurrence of the id, keeps every other id, and changes nothing when the id is absent |
| ProductRoutes.PullIdempotent | backend/routes/product.js:209 | pulling twice equals pulling once |
| ProductRoutes.Create | backend/routes/product.js:10-34 | 400 if a required field is falsy, 500 if the document fails to cast or validate, else 201 with only the new product added |
| ProductRoutes.All | backend/routes/product.js:38-47 | every product once, newest first |
| ProductRoutes.My | backend/routes/product.js:59-74 | exactly the requester's products, newest first, with `/my` paths, and `count` is their number |
| ProductRoutes.Detail | backend/routes/product.js:87-106 | 404 for an unknown id, else the product with detail paths |
| ProductRoutes.Updated | backend/routes/product.js:155 | each body key's field takes the body's value (trimmed where the schema trims); every other field is kept; `None` iff a value does not cast |
| ProductRoutes.AssignStep | backend/routes/product.js:155 | one more assignment extends the assigned key set by one |
| ProductRoutes.AssignFails | backend/routes/product.js:155 | a value that does not cast makes the assignment fail |
| ProductRoutes.UpdatedKeepsTrimmed | backend/models/Product.js:7-13 | an update keeps title and description trimmed |
| ProductRoutes.UpdatedKeepsTrimmedTexts | backend/models/Product.js:7-13 | the updated texts are fixed points of trim |
| ProductRoutes.UpdatedIdempotent | backend/routes/product.js:155 | sending the same update twice equals sending it once |
| ProductRoutes.AssignAll | backend/routes/product.js:155 | the assignment loop, in any key order, yields the specified update |
| ProductRoutes.Update | backend/routes/product.js:118-168 | 400 for a key outside the whitelist, 404 if not found or not owned, 400 for a bad price, 500 if invalid; only 200 changes the store, and only that product |
| ProductRoutes.Delete | backend/routes/product.js:181-231 | 404 with nothing changed unless an admin or the owner; else the product is removed and its id is pulled from the owner only |
| ProductRoutes.DeleteTouchesOnlyOwner | backend/routes/product.js:208-210 | after the pull the id is gone from the owner's list and no other user changes |
| PostController.Window | backend/controllers/post.js:13-14 | `skip(s).limit(l)` is the slice from `s`, at most `\|l\|` long (`0` meaning no limit) |
| PostController.PagesTile | backend/controllers/post.js:13-14 | consecutive pages of one size join into the double-size window |
| PostController.GetUserPosts | backend/controllers/post.js:4-25 | 500 for a negative skip; else the page of the requester's posts (status-filtered when given), newest first, and `total` counts all of them |
| PostController.Pick | backend/controllers/post.js:35-45 | only the named keys that the body gives are copied |
| PostController.PostImages | backend/controllers/post.js:36 | each uploaded file becomes `/posts/<name>`, in order |
| PostController.CreatePost | backend/controllers/post.js:33-55 | one new post owned by the requester, with the copied fields and `/posts/` images |
| PostController.Merge | backend/controllers/post.js:68-72 | the given post fields are set, the others kept; creator, images and creation time are unchanged |
| PostController.MergeIdempotent | backend/controllers/post.js:68-72 | updating twice with one body equals updating once |
| PostController.UpdatePost | backend/controllers/post.js:63-81 | 404 with nothing changed unless the requester owns the post; else only that post's given fields change |
| PostController.DeletePost | backend/controllers/post.js:89-114 | 404 with nothing changed unless owned; else the post is removed and the answer is 500 iff it had images |
| PostController.DeletePostBound | backend/controllers/post.js:89-114 | the intended deletion answers 200 after removing the owner's post |
| PostController.DeleteWithImageReportsFailure | backend/controllers/post.js:103-109 | a deleted post with one picture still answers 500 |
| Upload.Extension | backend/routes/upload.js:13 | the extension has no dot, and is the whole name when the name has none |
| Upload.StoredNameKeepsExtension | backend/routes/upload.js:12-15 | the stored name `<timestamp>.<ext>` has the original's extension |
| Upload.StoredNameStartsWithTimestamp | backend/routes/upload.js:14 | the stored name begins with the timestamp's digits and a dot |
| Upload.Receive | backend/routes/upload.js:18-28 | a file is stored iff its mimetype starts with `image/` and it is within the limit |
| Upload.ReceivePostImages | backend/routes/posts.js:20-34 | a post upload is stored iff it has at most five files, each accepted, named in order |
| Upload.ReceiveEachSpec | backend/routes/posts.js:34 | a batch is stored iff every file in it passes the filter and the limit, under the files' names in their order |
| Upload.UploadProduct | backend/routes/upload.js:30-47 | 400 without a file, 500 for a rejected one, else 200 with `/uploads/products/<name>` |
| Upload.UploadUrlShape | backend/routes/upload.js:39 | a returned URL lies under `/uploads/products/` and keeps the original extension |
| Upload.AvatarLimitTighter | backend/routes/users.js:20 | every avatar the 2 MB rule accepts passes the 5 MB rule, not conversely |
| HttpClient.OnRequest | frontend/src/utils/axios.js:10-15 | `Authorization: Bearer <token>` iff a token is stored, otherwise the config is unchanged |
| HttpClient.Call | frontend/src/utils/axios.js:23-33 | a 2xx resolves to the body; a 401 removes the token, goes to `/login` and is still rejected; no response gives a TypeError |
| HttpClient.GateSeesStoredToken | frontend/src/utils/axios.js:13 | the backend gate admits the client's header iff the stored token verifies, with its claims |
| UserStore.Profile | frontend/src/stores/user.js:25-35 | each profile key is taken from `info` when truthy there (`id` from `_id`), else its default |
| UserStore.AdminAfterSetIff | frontend/src/stores/user.js:33-40 | after `setUserInfo(info)` the user is an admin iff `info.role` is `admin` |
| UserStore.NoAdminByDefault | frontend/src/stores/user.js:9-108 | neither the initial profile nor the one `logout` restores is an admin's, and the reset has no role |
| UserStore.UserStore.SetUserInfo | frontend/src/stores/user.js:24-37 | the profile keys are overwritten, other keys kept, and the store is signed in |
| UserStore.UserStore.Logout | frontend/src/stores/user.js:84-115 | whatever the request does: token removed, profile reset, signed out, not admin, `/login` pushed when asked; the page location is `/login` after a 401 answer and unchanged otherwise |
| UserStore.UserStore.UpdateUserInfo | frontend/src/stores/user.js:43-58 | merges and answers true iff the reply has code 200; false or a rethrow leave the profile unchanged; the token is cleared and the page sent to `/login` exactly on a 401, and both are kept otherwise |
| UserStore.UserStore.FetchUserInfo | frontend/src/stores/user.js:61-81 | code 200 sets the profile, a 401 signs out, everything else answers false and leaves the profile unchanged; the token, the page and the pushed paths change only on a 401 |
| ProductStore.OptionsFollowSchemaIndex | frontend/src/stores/product.js:154-173 | each form option is a distinct schema category at a fixed position |
| ProductStore.SchemaCategoryOffered | frontend/src/stores/product.js:154-173 | every category of the schema's enum is offered by some form option |
| ProductStore.OfferedInSchema | frontend/src/stores/product.js:154-173 | every option the form offers is a category of the schema's enum |
| ProductStore.CategoriesAgreeWithSchema | frontend/src/stores/product.js:154-173 | the form's category values are exactly the schema's enum |
| ProductStore.Normalise | frontend/src/stores/product.js:33-36 | `id` becomes `_id` when that is truthy, and every other field is copied |
| ProductStore.NormalisedMatchesById | frontend/src/stores/product.js:35-101 | a normalised item is found by either key iff its `_id` is the id |
| ProductStore.NormaliseIdempotent | frontend/src/stores/product.js:33-36 | normalising twice equals normalising once |
| ProductStore.NormaliseAll | frontend/src/stores/product.js:33 | the list keeps its length and order, and each item is normalised |
| ProductStore.ListOfCases | frontend/src/stores/product.js:33 | `response.data.data \|\| response.data` gives a list iff `data` is an array or an object whose `data` is an array, and `{data: []}` gives the empty list |
| ProductStore.SpreadCharsAt | frontend/src/stores/product.js:33-36 | `{...s}` of a string holds each character under its decimal index and no other key |
| ProductStore.SpreadCharsNormalised | frontend/src/stores/product.js:33-36 | an object spread from a string has no `_id`, so normalising keeps it |
| ProductStore.FindIndex | frontend/src/stores/product.js:101 | the first entry whose `_id` or `id` is the id, or none |
| ProductStore.MergeFirst | frontend/src/stores/product.js:101-104 | only the first matching entry is merged; length and other entries are unchanged |
| ProductStore.Without | frontend/src/stores/product.js:129 | exactly the entries not matching the id remain |
| ProductStore.WithoutAppend | frontend/src/stores/product.js:129 | the filter works entry by entry, so the kept entries keep their order |
| ProductStore.ProductStore.FetchMyProducts | frontend/src/stores/product.js:28-44 | a resolved reply whose `data`, or the array under its `data`, can be mapped becomes the normalised list; else an error is recorded and the list kept; not loading afterwards; the token is cleared and the page sent to `/login` exactly on a 401, and both are kept otherwise |
| ProductStore.ProductStore.UpdateProduct | frontend/src/stores/product.js:95-119 | after a resolved request the first entry and the product on display, if it matches, are merged; a failure changes neither; the token is cleared and the page sent to `/login` exactly on a 401, and both are kept otherwise |
| ProductStore.ProductStore.DeleteProduct | frontend/src/stores/product.js:123-142 | after a resolved request all matching entries are gone and a matching display is cleared; a failure changes neither; the token is cleared and the page sent to `/login` exactly on a 401, and both are kept otherwise |
| ProductStore.ProductStore.Reset | frontend/src/stores/product.js:145-151 | the lists are empty, nothing is shown, there is no error, and the store is not loading |
| Router.Resolve | frontend/src/router/index.js:19-21 | `/` goes to `/home`, and every other non-empty path stays |
| Router.RootMatches | frontend/src/router/index.js:19-21 | the `/` record matches only `/` and the empty path |
| Router.MatchesIff | frontend/src/router/index.js:9-11 | a record matches a visited path iff the path has the record's length, or one more with a trailing `/`, and its letters fold onto the record's case-insensitively |
| Router.TableFlags | frontend/src/router/index.js:12-46 | only paths matching `/profile` or `/admin` require auth, and only those matching `/admin` require an admin |
| Router.SpellingsShareMeta | frontend/src/router/index.js:22-45 | `/Admin` and `/admin/` carry `/admin`'s flags, `/PROFILE/` carries `/profile`'s, and `/admin//` carries none |
| Router.Decide | frontend/src/router/index.js:64-75 | `/home` iff admin is required and missing; else `/login` for auth without a token; else `/profile` for the sign-in pages with a token; else proceed |
| Router.TokenlessAdminVisitGoesHome | frontend/src/router/index.js:65-67 | a tokenless non-admin visiting `/admin` or `/Admin/` goes to `/home`, and `/Profile` without a token goes to `/login` |
| Router.TokenOpensProfile | frontend/src/router/index.js:69-75 | with a token, `/profile` and `/` proceed |
| Router.SignInCheckIsExact | frontend/src/router/index.js:71-72 | with a token, `/login` goes to `/profile`, but `/Login` proceeds, because `to.path` is compared exactly |
| Router.BeforeEach | frontend/src/router/index.js:50-76 | the single `next` decision uses the token read first and the admin flag after the fetch, and without a fetch nothing changes; after a fetch the store is not loading and the token and page change only on a 401 |
| Router.ExpiredTokenOnProfile | frontend/src/router/index.js:51-62 | with an expired token, `/profile` signs out, goes to `/login` and still proceeds |

## Left out

- The Post schema is not part of this model. A post keeps the given fields as JSON values, and saving a post cannot fail.
- bcrypt's salts and cost, and jsonwebtoken's signature and secret, are left out. The stand-ins have the properties listed above, and a forged token might be accepted by the model.
- `Bcrypt.HashInjective` and `AuthController.Login`: bcryptjs hashes only the first 72 bytes of a password's UTF-8 encoding, so two passwords that share those bytes compare equal in the source. For example, 80 times `a` signs in with a stored hash of 79 times `a` followed by `b`. The stand-in tells them apart, so such a login is a 400 in the model and a 200 in the source.
- The auth and user handlers take their bodies as `map<string, string>`, so every field is a string, and `Json.Value` has no booleans and no nested objects. In the source a JSON body may place an object such as `{"$ne": ""}` in `username`. express-validator reads it as the string `[object Object]`, while `User.findOne` receives it as a query operator. Such inputs are outside the model.
- Ids are natural numbers handed out by the store. Malformed ObjectIds, which make Mongoose throw (500), are not modelled.
- Mongoose casts numbers to `String` paths. The model accepts only strings there, so a number title is a 500 here.
- `parseFloat` is an input: the caller passes its result, with `None` for `NaN`.
- Query strings are taken as already-coerced integers. A `page` or `limit` that reads as `NaN` is not modelled.
- Timestamps are milliseconds kept as numbers. `toISOString`, `populate`, `lean` and `select` projections are left out.
- The list and detail handlers return the product records, without owner details.
- Files are not deleted on disk. `ProductRoutes.Delete` returns the paths it would unlink, and the post and avatar clean-up is left out.
- A string length here counts code points. The controllers' `.length` counts UTF-16 units; the two differ only for characters outside the Basic Multilingual Plane. validator.js's `isLength`, behind the register chains, also leaves out the presentation selectors U+FE0E and U+FE0F, and `Validation.ValidatorLength` models that.
- `UserController.UpdateProfile` and `PostController.UpdatePost` assume Mongoose 6 or later, which drops `undefined` values from an update before sending it. The handlers pass every key, given or not (backend/controllers/user.js:41-45, backend/controllers/post.js:68-72). Under Mongoose 5's defaults an absent field would be written as `null` instead of being kept. The source does not pin the Mongoose version.
- `getProfile` and the public `GET /api/products` listing carry no decision logic beyond a 404. `ProductRoutes.All` covers the listing; `getProfile` is not modelled.
- `ProductStore.ProductStore.FetchMyProducts`: `Json.Value` has arrays of strings but no arrays of objects. An object answer whose own `data` is an array of objects therefore cannot be written, although `fetchMyProducts` would map it. The backend's `/my` answers with the array itself.
- From the product store, `fetchProducts`, `getProductDetail`, `fetchProductById` and `createProduct` only copy a reply into a field, so they are not modelled.
- The route files `auth.js`, `users.js`, `posts.js` and `admin.js` only wire gates to handlers. Their upload limits are in `Upload`.
  - `users.js` calls `path.join` without importing `path`, so every avatar upload fails there. `UserController.UploadAvatar` models the handler as if the upload succeeded.
- `UserStore.UserStore.FetchUserInfo`: the `logout` it calls is not awaited. The model lets it complete before the fetch returns.
- `Router.Matches` covers vue-router's matching of static paths only, which is all this table has. Percent-encoded spellings of a path are left out.
- `Router.BeforeEach`: the guard's `catch` branch is dead, because `fetchUserInfo` catches every error itself.
- The application's error handler in `backend/app.js` refers to `multer`, which it never binds, so a rejected upload reaches the client as Express's default 500. `Upload.UploadProduct` answers 500 for it, and the rest of `app.js` is left out.
- Async ordering, Vue reactivity, `localStorage` and `window.location` are fields of `HttpClient.Browser`. Concurrency is left out.
- Server startup, configuration and database connection (`server.js`, `app.js`, `config/db.js`, `main.js`) are left out.
- `frontend/src/stores/category.js` only forwards to the router, so it is not modelled.
- `POST /api/products` never adds the new id to the owner's `products` list. `ProductRoutes.Create` leaves the users untouched, as the handler does.

## Findings

| source | as written | input that shows it | evidently intended | confidence | as-written member | corrected member |
|---|---|---|---|---|---|---|
| backend/controllers/user.js:138-139 | the handler stores `bcrypt.hash(newPassword)`, and the pre-save hook hashes it again | any successful change: afterwards, logging in with the new password fails | assign the plaintext and let the hook hash it once | high (not executed) | UserController.ChangedPasswordRejected | UserController.ChangedOncePasswordAccepted |
| backend/controllers/post.js:103-109 | image clean-up uses `path` and `unlink`, which the file never imports | deleting an owned post with images `["/posts/1.png"]` removes it and answers 500 | remove the files and answer 200 | high (not executed) | PostController.DeleteWithImageReportsFailure | PostController.DeletePostBound |
