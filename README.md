# backendLucid: a Dafny model of the marketplace and community API

backendLucid is an Express and Mongoose backend for a farming marketplace.
Sellers post listings with up to five images. Buyers search the listings and
message sellers. Users register and log in, and receive a bearer token that
the authentication middleware checks. A community board holds discussion
posts, each of which may carry one image.

This project models the core of that backend:

- the listing, message, community and account handlers;
- the `protect` middleware;
- the listing and community route tables, with their upload and file-filter configuration;
- the Listing, User and CommunityPost schemas.

Each handler is either a function from the request and the store to a
response, or a method on a store class whose fields stand for the
collections.

Modules:

| module | file | models |
|---|---|---|
| `Common` | common.dfy | Options, numbers as JavaScript produces them, responses, truthiness |
| `JsText` | js_text.dfy | the string built-ins the handlers use: trim, the UTF-16 length, lower-casing, split, join, the whitespace replacement, `parseInt` |
| `NodePath` | node_path.dfy | `path.extname` and `path.basename(p, ext)` |
| `ListingSchema` | listing_schema.dfy | models/Listing.js |
| `UserSchema` | user_schema.dfy | models/User.js |
| `CommunityPostSchema` | community_post_schema.dfy | models/CommunityPost.js |
| `ListingsController` | listings_controller.dfy | controllers/listingsController.js; `ListingStore` holds the listings and the files handed to `fs.unlink` |
| `MessageController` | message_controller.dfy | controllers/messageController.js |
| `CommunityController` | community_controller.dfy | controllers/communityController.js; `PostStore` holds the posts |
| `AuthController` | auth_controller.dfy | controllers/authController.js; `UserStore` holds the users |
| `AuthMiddleware` | auth_middleware.dfy | middleware/authMiddleware.js |
| `Uploads` | uploads.dfy | the multer step: the field and count check, the file filter, the size limit |
| `Routing` | routing.dfy | Express route matching, with the first match winning |
| `ListingsRoutes` | listings_routes.dfy | routes/listingsRoutes.js |
| `CommunityRoutes` | community_routes.dfy | routes/communityRoutes.js |

Some library calls become parameters:

- bcrypt hashing and comparison;
- `jwt.sign` and `jwt.verify`;
- `Date.now()` (a parameter `now`);
- the outcome of a message's `save()`;
- `User.countDocuments()`;
- whether the request body has a prototype (`BodyKind`): a JSON body does, a multipart or URL-encoded form body does not.

There are three kinds of response:

- `Ok(status, body)` is a JSON success body.
- `Err(status, message)` is a response the handler sends itself.
- `Thrown(status, message)` is an error thrown to the Express error handler, with the status set beforehand, if any.

## Model

| member | source | states |
|---|---|---|
| ListingsController.BuildListingQuery | controllers/listingsController.js:12-60 | A truthy search term gives three case-insensitive regex clauses: title, description and location. A truthy category is an exact match. The price range exists exactly when a bound is given, and each bound comes from its own parameter. The sort has exactly one key: price ascending, price descending, or newest first by default. |
| ListingsController.UploadPaths | controllers/listingsController.js:129 | One stored path per uploaded file, in upload order, each under "uploads/". |
| ListingsController.UploadPath | controllers/listingsController.js:129 | The stored path of one upload: "uploads/" then the filename multer chose. |
| ListingsController.ImageUrl | controllers/listingsController.js:70-72 | The URL is `protocol://host/` followed by the path. It has the same length as the path. Each backslash of the path becomes "/", and every other character is kept where it was. |
| ListingsController.UploadUrlIndependentOfSeparator | controllers/listingsController.js:70-72 | An upload stored as `uploads\f` (Windows join) and as `uploads/f` (POSIX join) gets the same URL, `protocol://host/uploads/f`. |
| ListingsController.FormatImages | controllers/listingsController.js:68-74 | One URL per stored image, in the same order. |
| ListingsController.FormatListing | controllers/listingsController.js:109-112 | The listing sent back differs from the stored one only in its images, which are the stored paths turned into URLs, one for each and in the same order. |
| ListingsController.FormatListings | controllers/listingsController.js:68-74 | Every listing of the result is formatted, in order, and none is dropped. |
| ListingsController.CheckCreate | controllers/listingsController.js:123-141 | Missing fields are refused exactly when the guard fails. A guarded body is accepted exactly when the listing built from it conforms to the schema. The accepted listing is the one built from the body, field by field. It has the caller as seller and the uploads as images. Title, description and location are trimmed. The category is as given, and so is the price, converted by `Number`. The condition is as given, and "Used - Good" when none was given. The creation time is the request time. A guarded body that does not conform is refused with exactly the schema's errors for the listing built from it (`ListingSchema.Errors`), which are never empty. A body whose price `Number` turns into NaN fails with the price's cast error first, and no later error concerns the price. |
| ListingsController.HasRequiredFields | controllers/listingsController.js:123-126 | The 400 guard: title, location, category and description present and non-empty, and a price present in any form, even "" or "0". |
| ListingsController.PriceDecidesCleanCreate | controllers/listingsController.js:137 | When the text fields are already clean, the price alone decides creation: a non-negative price is accepted, and a negative one or NaN is refused. A price of 0 passes the guard, which only rejects an undefined price, and is accepted. |
| ListingsController.CleanDraftConforms | controllers/listingsController.js:131-141 | With clean text fields, the draft listing conforms to the schema exactly when its price is one the schema allows. |
| ListingsController.KeptImages | controllers/listingsController.js:174 | An array is kept as it is, and a single non-empty value becomes a one-element list. An empty or absent field keeps nothing. |
| ListingsController.RemovedImages | controllers/listingsController.js:175 | An image is deleted exactly when it is stored and not on the keep list. |
| ListingsController.RemovedImagesKeepsOrder | controllers/listingsController.js:175 | The deletions keep the stored order: those of two runs of stored images are the first run's, then the second's. |
| ListingsController.RetainedImages | controllers/listingsController.js:174-175 | The stored images the keep list names, and only those. |
| ListingsController.RetainedAndRemovedPartitionStored | controllers/listingsController.js:174-175 | Counted with multiplicity, the retained and the deleted images together are the stored images, so no file is lost or counted twice. |
| ListingsController.UpdateFieldsOf | controllers/listingsController.js:190-199 | The update document has the body's text fields unchanged, the reconciled image list, `Number(price)`, and isNegotiable true only for the text "true". |
| ListingsController.UpdateWithoutPriceRejected | controllers/listingsController.js:196 | An update without a price always fails validation, because `Number(undefined)` is NaN. |
| ListingsController.KeepListUnchecked | controllers/listingsController.js:174-188 | The keep list is not checked against the stored images: a path the listing never had ends up in its images. |
| ListingsController.ListingStore.GetSingle | controllers/listingsController.js:100-115 | A known id gives 200 and the listing with image URLs. An unknown id gives 404 "Listing not found". |
| ListingsController.ListingStore.MyListings | controllers/listingsController.js:82-95 | Exactly the caller's listings, each with image URLs. |
| ListingsController.ListingStore.Create | controllers/listingsController.js:120-151 | It answers 400 for missing fields and a validation error for a schema failure, and the store is unchanged in both cases. Otherwise the accepted listing is stored under a fresh id, with the caller as seller, and returned with 201. No id is reused and no file is unlinked. |
| ListingsController.ListingStore.Commit | controllers/listingsController.js:143-150 | The response for a decided creation. An accepted listing is inserted under the id that was not yet in use. |
| ListingsController.ListingStore.UnlinkAll | controllers/listingsController.js:177-185 | Every path is handed to `fs.unlink`, in order, and nothing else changes. |
| ListingsController.ListingStore.Update | controllers/listingsController.js:156-209 | 404 before 403, and the store is unchanged for both. For the owner, the stored images not kept are unlinked first, whatever happens next. A refused update leaves the record as it was. A NaN price makes it throw the cast error for `price` alone; any other failure throws "Validation failed: " and the failing paths. Otherwise the record becomes the update applied to it, and it is returned with URLs. |
| ListingsController.ListingStore.Delete | controllers/listingsController.js:214-248 | 404 before 403, and the store is unchanged for both. For the owner, every image file is unlinked and exactly that record is removed. |
| MessageController.CatchResponse | controllers/messageController.js:52-59 | A ValidationError gives 400 and the joined messages. Every other error gives 500. |
| MessageController.Guards | controllers/messageController.js:16-31 | It passes exactly when the content is a non-blank string of at most 500 UTF-16 units, the listing exists and the sender is not its seller. The checks run in that order, and each has its own status and message. |
| MessageController.SendMessage | controllers/messageController.js:9-61 | A refused request stores nothing. A message is stored exactly when the guards pass and the save succeeds. It goes from the sender to the listing's seller, never to the sender, with the trimmed non-empty content, and is answered with 201. |
| MessageController.SendMessageAsWritten | controllers/messageController.js:2 | As written, a request that passes the guards raises a TypeError at `new Message`, which is caught and answered with 500. |
| MessageController.AsWrittenNeverSends | controllers/messageController.js:37-44 | As written, no message is ever stored, and every request that passes the guards gets 500. |
| MessageController.AsWrittenRefusesValidMessage | controllers/messageController.js:37-44 | A valid message from a buyer gets 500 as written and is sent by the corrected version. |
| MessageController.AsWrittenRefusesHi | controllers/messageController.js:37-44 | The concrete request "Hi" from user 2 about listing 7 of seller 1 gets 500 as written. |
| MessageController.VersionsAgreeOnRefusals | controllers/messageController.js:16-31 | The written and the corrected handler give the same answer to every request the guards refuse. |
| MessageController.ContentCheckedBeforeLookup | controllers/messageController.js:16-26 | Blank or overlong content is refused with 400, whatever the store holds. |
| CommunityController.ChooseCreateImageUrl | controllers/communityController.js:15-21 | An uploaded file wins, then a truthy `imageUrl` from the body, else "". |
| CommunityController.UploadedUrl | controllers/communityController.js:18 | The URL a post stores for its uploaded image: "/uploads/" then the filename. |
| CommunityController.BuildPostUpdate | controllers/communityController.js:60-89 | Title and content are always written. The image URL is written exactly when a file was uploaded or the body has an `imageUrl` key, even an empty one. This is the key test the handler intends; `UpdateOutcomeAsWritten` gives what the written key test does. |
| CommunityController.UpdateOutcome | controllers/communityController.js:58-98 | The intended update: 404, then 403 for anyone but the author, then 400 for an empty title or content, each leaving the posts as they were. Otherwise only that post changes: title and content replaced, and the image URL replaced by the upload or by the body's key. The set of ids never changes, and posts with a title and content keep them. |
| CommunityController.UpdateOutcomeAsWritten | controllers/communityController.js:62-66 | As written, an edit without a file on a body without a prototype (a multipart or URL-encoded form) throws a TypeError before the post is looked up, with no status set. Every other request gets the intended outcome. |
| CommunityController.AsWrittenFormEditFails | controllers/communityController.js:64 | The author correcting the text of a post through a form without a new image gets the TypeError as written. The intended handler answers 200 with the new title. |
| CommunityController.ApplyPostUpdate | controllers/communityController.js:85-95 | Title and content are replaced. The image URL is replaced only when the update carries one. Author and creation time never change. |
| CommunityController.GuardedCreateValidates | controllers/communityController.js:23-48 | A request that passes the handler's title and content guard also passes the schema, so the ValidationError branch is never reached. |
| CommunityController.BuildPostsQuery | controllers/communityController.js:121-130 | The sort is always newest first. There is a limit exactly when `limit` is truthy and `parseInt` gives a positive number, and the limit is that number. |
| CommunityController.DecimalLimit | controllers/communityController.js:125-130 | The decimal text of n parses back to n, so "0" parses to 0, which sets no limit. |
| CommunityController.Page | controllers/communityController.js:121-133 | Without a limit every post is returned. With one, the first min(limit, count) posts are returned, newest first. |
| CommunityController.PostStore.GetById | controllers/communityController.js:139-149 | A known id gives 200 and the post. Any other id gives 404 "Discussion post not found". |
| CommunityController.PostStore.Stats | controllers/communityController.js:154-166 | 200, with the number of posts, the number of members, and zero for the other three figures. |
| CommunityController.PostStore.Create | controllers/communityController.js:8-53 | 400 without a truthy title and content, then 401 without a caller, and the store is unchanged in both cases. Otherwise a new post by the caller, with the chosen image URL, stored under a fresh id and returned with 201. Every stored post keeps a title and content. |
| CommunityController.PostStore.Update | controllers/communityController.js:58-98 | The handler as written, for a body of the given kind. The posts afterwards and the answer are those of `UpdateOutcomeAsWritten`. Every stored post keeps a title and content, and the id counter is unchanged. |
| CommunityController.PostStore.UpdateIntended | controllers/communityController.js:68-97 | The intended handler. The posts afterwards and the answer are those of `UpdateOutcome`. Every stored post keeps a title and content. |
| CommunityController.PostStore.Delete | controllers/communityController.js:100-116 | 404, then 403 for anyone but the author, leaving the store unchanged. Otherwise exactly that post is removed and its id returned. |
| AuthController.IndexOfEmail | controllers/authController.js:19 | Finds the user with that email, or reports that there is none. |
| AuthController.RegistrationErrorsAsWritten | controllers/authController.js:29-37 | The validation registration runs as written. It passes exactly when the document holding the hash conforms to the schema. |
| AuthController.RegistrationErrors | models/User.js:16-20 | The intended validation. It passes exactly when the document holding the typed password conforms, so a password shorter than six characters is refused. |
| AuthController.ShortPasswordAcceptedAsWritten | controllers/authController.js:26-37 | As written, any password is accepted once name and email are valid, because the 60-character hash is what gets measured. The corrected check refuses "a". |
| AuthController.ShortPasswordExample | controllers/authController.js:26-37 | Ann, with email ann@farm.co and password "a": accepted as written, refused when corrected. |
| AuthController.UserStore.FindByEmail | controllers/authController.js:19 | The user stored under the email, or none, and never a match for an undefined email. |
| AuthController.UserStore.Register | controllers/authController.js:14-77 | The handler as written. In order: a taken email gives 400, and a missing password gives 500. Then the document holding the hash is validated, and a failure gives 400 with the joined messages. In each of these cases nothing is stored. Otherwise the user is appended with the hashed password and can then be found by email. A failed token signing gives 500 yet leaves the user registered. Emails stay unique. |
| AuthController.UserStore.RegisterIntended | controllers/authController.js:14-77 | The intended handler: the same steps, with the password rules applied to the password as typed. |
| AuthController.UserStore.Save | controllers/authController.js:37-66 | With validation errors it answers 400 with the joined messages and stores nothing. Otherwise the user is appended and found by that email, and the answer is 201 with a token, or 500 when signing fails. Emails stay unique. |
| AuthController.UserStore.Login | controllers/authController.js:82-132 | An unknown email and a wrong password both give 400 "Invalid credentials". A known email with a matching password and a signed token answers 200, with the token and the user without the password, and nothing else answers 200. |
| AuthController.UserStore.GetMe | controllers/authController.js:134-153 | 200 with the profile exactly when the user exists, else 404. |
| AuthController.LoginFailuresIndistinguishable | controllers/authController.js:88-96 | A caller cannot tell an unknown email from a wrong password, because both get the same response. |
| AuthController.RegisteredEmailFound | controllers/authController.js:19-37 | After registration the email finds the new user, so registering it again is refused. |
| AuthMiddleware.TokenOf | middleware/authMiddleware.js:13 | The second field of the header split at spaces, which contains no space. There is none exactly when the header has no space. |
| AuthMiddleware.HasBearer | middleware/authMiddleware.js:10 | The header is present and starts with "Bearer", with or without a space after it. |
| AuthMiddleware.TokenIsSecondWord | middleware/authMiddleware.js:13 | After a space-free first word and one space, the token is the next space-free word, whether the header ends there or goes on after another space. |
| AuthMiddleware.Protect | middleware/authMiddleware.js:7-55 | Every refusal is 401, and without a "Bearer" header the message is "no token". A "Bearer" header with no token, or an empty one, is refused as an invalid token without consulting `verify`. A request passes exactly when a non-empty token verifies to a user id that exists, and then carries that user without the password. A verification error gets its own message, and every other failure gets "token failed". |
| AuthMiddleware.VerifyToken | middleware/authMiddleware.js:13-16 | A missing or empty token fails with a JsonWebTokenError. Any other token gets what `verify` says of it. |
| AuthMiddleware.MissingTokenInvalid | middleware/authMiddleware.js:13-44 | "Bearer" and "Bearer " alone are refused with 401 and "invalid token". |
| AuthMiddleware.FailureMessagesDistinct | middleware/authMiddleware.js:39-49 | An expired token, an invalid token and any other failure get three different messages. |
| AuthMiddleware.FailureMessage | middleware/authMiddleware.js:39-49 | A TokenExpiredError gets "token expired", a JsonWebTokenError "invalid token", and any other error "token failed". |
| AuthMiddleware.BearerHeaderYieldsToken | middleware/authMiddleware.js:10-13 | "Bearer " followed by a space-free token passes the first check and yields exactly that token. |
| AuthMiddleware.ValidTokenPasses | middleware/authMiddleware.js:10-33 | A bearer token that verifies to an existing user lets the request through with that user. |
| Uploads.CheckFile | routes/listingsRoutes.js:39-52 | A file passes exactly when a slot remains and it has the expected field, passes the filter and is within the size limit. A filter refusal carries the route's message. |
| Uploads.Admit | routes/listingsRoutes.js:39-52 | Parts without a filename are skipped before any check and use none of the count. The named parts are admitted, unchanged and in order, exactly when there are at most maxCount of them and each passes the field, filter and size checks. |
| Uploads.Named | routes/listingsRoutes.js:39-52 | The file parts multer handles: those with a filename, in arrival order. A part is kept exactly when it was sent and has a filename. |
| Uploads.UnnamedPartsIgnored | routes/listingsRoutes.js:39-52 | Parts without a filename change nothing: the upload step decides as it would on the named parts alone. |
| Uploads.ImageAllowedNeedsText | routes/listingsRoutes.js:42-51 | A filter of non-empty words refuses a file with no extension or no mimetype. |
| Uploads.WiderFilterAccepts | routes/communityRoutes.js:31-33 | A filter whose words include another filter's accepts every file that the other accepts. |
| Routing.Resolve | routes/listingsRoutes.js:57-75 | The route reached is the first, in registration order, that matches the method and path. A fixed segment matches whatever the case of its ASCII letters. There is none exactly when no route matches. |
| Routing.PartMatches | routes/listingsRoutes.js:57-75 | A fixed segment matches the request segment when the two agree once their ASCII letters are lower-cased. A `:name` segment matches any non-empty segment. |
| Routing.ResolvesTo | routes/listingsRoutes.js:57-75 | A request reaches a route when that route matches and no earlier one does. |
| ListingsRoutes.AdmitImages | routes/listingsRoutes.js:39-52 | Among the parts with a filename: at most five, all under "images", each an accepted image of at most 5 MiB. Parts without a filename are skipped. |
| ListingsRoutes.EmptyFileInputSkipped | routes/listingsRoutes.js:69 | A part with an empty filename, from an empty file input, is skipped, whatever its field and type, and the request goes on with no new image. |
| ListingsRoutes.AcceptsFile | routes/listingsRoutes.js:42-51 | The listing filter: an image word occurs in the mimetype and in the lower-cased extension. A file without an extension or a mimetype is refused. |
| ListingsRoutes.StoredFilename | routes/listingsRoutes.js:32-36 | The base name with its whitespace runs replaced by "_", "-", the time in milliseconds, and the original extension. |
| ListingsRoutes.StoredFilenameShape | routes/listingsRoutes.js:32-36 | The stored name ends with the original extension and contains no "/". Its cleaned base part has no whitespace and keeps every other character of the original base name, in order. |
| ListingsRoutes.CleanStemFacts | routes/listingsRoutes.js:34-35 | The base name with its whitespace runs replaced has no whitespace and no "/", and loses no other character. |
| ListingsRoutes.ProtectedRoutes | routes/listingsRoutes.js:57-75 | Every route runs `protect` except the two public reads. Only create and update take the image upload. |
| ListingsRoutes.MyIsNotAnId | routes/listingsRoutes.js:60-63 | GET /my reaches the caller's listings and is never read as an id. |
| ListingsRoutes.OtherSegmentIsAnId | routes/listingsRoutes.js:60-63 | Any other non-empty single segment, that is one that is not "my" in any case, reaches the listing with that id. |
| ListingsRoutes.MyInAnyCase | routes/listingsRoutes.js:60-63 | Every spelling of "my", in any case, reaches the caller's listings behind `protect`. |
| ListingsRoutes.UpperMyReachesMyListings | routes/listingsRoutes.js:60 | GET /MY reaches the caller's listings. |
| ListingsRoutes.UpperCaseExtensionAccepted | routes/listingsRoutes.js:42-51 | The extension is lower-cased before the test, so ".JPG" with an image/jpeg mimetype is accepted. |
| ListingsRoutes.UpperCaseJpgExample | routes/listingsRoutes.js:44 | "photo.JPG" sent as image/jpeg is accepted. |
| ListingsRoutes.WebpRefused | routes/listingsRoutes.js:43 | A ".webp" file is refused whatever its mimetype. |
| CommunityRoutes.AdmitImage | routes/communityRoutes.js:42-46 | Among the parts with a filename: at most one, under "image", an accepted image of at most 5 MiB. Parts without a filename are skipped. |
| CommunityRoutes.AcceptsFile | routes/communityRoutes.js:30-40 | The community filter, which also admits webp. A file without an extension or a mimetype is refused. |
| CommunityRoutes.StoredFilename | routes/communityRoutes.js:24-27 | The field name, "-", the time in milliseconds, and the original extension. |
| CommunityRoutes.StoredFilenameShape | routes/communityRoutes.js:24-27 | The stored name is the field name, "-", the time and the original extension, and contains no "/". |
| CommunityRoutes.AcceptsListingImages | routes/communityRoutes.js:30-40 | Every image the listing filter accepts, this filter accepts too. |
| CommunityRoutes.WebpAccepted | routes/communityRoutes.js:30-40 | A webp image is accepted here and refused by the listing filter. |
| CommunityRoutes.ProtectedRoutes | routes/communityRoutes.js:49-60 | Exactly the writes run `protect`. Only create and update take the image upload. |
| CommunityRoutes.StatsAndPostRoutes | routes/communityRoutes.js:54-60 | GET /stats reaches the statistics, and GET /discussions/<id> reaches the post with that id. |
| CommunityRoutes.PostRoute | routes/communityRoutes.js:49-56 | GET /discussions/<id> reaches the post with that id, not the list. |
| CommunityRoutes.StatsInAnyCase | routes/communityRoutes.js:49-60 | Every spelling of "stats", in any case, reaches the statistics. |
| CommunityRoutes.UpperStatsReachesStats | routes/communityRoutes.js:60 | GET /STATS reaches the statistics. |
| ListingSchema.CastErrorFirst | controllers/listingsController.js:131-143 | A NaN price gives a cast error at the head of the error list, and no validator reports on the price after it. A price that was cast gives no cast error. |
| ListingSchema.Errors | models/Listing.js:5-58 | The failures a `save()` reports: the price cast error, then the validators in schema order. There are at most six, and no path is reported twice. |
| ListingSchema.ValidationFailure | controllers/listingsController.js:143 | The message of the ValidationError a failed `save()` raises: "Listing validation failed: " then "path: message" per failure, joined by ", ". |
| ListingSchema.ErrorsEmptyIffConforms | models/Listing.js:5-58 | The validators find no error exactly when the listing conforms. Conforming means: title of 1 to 100 units, description of 1 to 1000, a non-negative price, a category and a condition from their lists, and a location. |
| ListingSchema.NewListing | models/Listing.js:6-53 | Title, description and location are trimmed. The price, category, seller and creation time are as given. isNegotiable defaults to false, the condition to "Used - Good" and the images to [], and each is as given when it is given. |
| ListingSchema.DefaultConditionAllowed | models/Listing.js:40-44 | The default condition passes the condition enum. |
| ListingSchema.ApplyUpdate | controllers/listingsController.js:201 | Seller and creation time are kept. Images, price and flag are replaced. Each of title, description, location, category and condition is kept when the update leaves it out. When the update sets it, it is replaced, and title, description and location are trimmed. |
| ListingSchema.UpdateErrors | controllers/listingsController.js:201 | The update validators. They report only on paths the update writes: the price, and each optional field only when it is given. There are at most six, and no path is reported twice. |
| ListingSchema.UpdateFailure | controllers/listingsController.js:201 | A refused update's message: the price cast error alone for a NaN price, and otherwise "Validation failed: " with the validators' messages. |
| ListingSchema.UpdateErrorsEmptyParts | controllers/listingsController.js:201 | An update with no validation error is valid on every path it sets. |
| ListingSchema.UpdatePreservesConformance | models/Listing.js:5-58 | An update that passes the update validators keeps a conforming listing conforming. |
| UserSchema.Public | controllers/authController.js:58-63 | The user sent back has the id, name, email and phone, and no password. |
| UserSchema.Errors | models/User.js:5-20 | The failing validators' messages in schema order: name required, email required or not matching the pattern, password required or shorter than 6. |
| UserSchema.MatchesEmailPattern | models/User.js:14 | `/.+@.+\..+/` finds a match: an "@" with a character before it, at least one character before a later ".", and one after it, none a line terminator. |
| UserSchema.ErrorsEmptyIffConforms | models/User.js:5-27 | A draft passes validation exactly when name and email are present, the email matches `.+@.+\..+`, and the password has at least 6 units. |
| UserSchema.EmailPatternExamples | models/User.js:14 | "ann@farm.co" matches the email pattern. "ann@farm" and "@farm.co" do not. |
| CommunityPostSchema.ErrorsEmptyIff | models/CommunityPost.js:5-12 | A draft passes exactly when title and content are non-empty and an author is set. The image URL plays no part. |
| CommunityPostSchema.Errors | models/CommunityPost.js:3-13 | The failing `required` validators of title, content and author, in schema order. |
| CommunityPostSchema.Build | models/CommunityPost.js:5-12 | The stored post keeps the draft's title, content, image URL and author. |
| JsText.Utf16Length | controllers/messageController.js:19 | `.length` counts UTF-16 units: between one and two per character, and exactly one each when every character is in the BMP. |
| JsText.Trim | controllers/messageController.js:16 | The result is a contiguous slice with all-whitespace margins and no whitespace at either end. It is empty exactly when the text is all whitespace. |
| JsText.TrimIdempotent | models/Listing.js:9 | Trimming twice is trimming once. |
| JsText.ToLowerAscii | routes/listingsRoutes.js:44 | Same length, and no upper-case letter remains. |
| JsText.ReplaceAll | controllers/listingsController.js:71 | Same length, each backslash turned into "/", and nothing else changed. |
| JsText.StartsWith | middleware/authMiddleware.js:10 | `startsWith`: the text begins with the prefix. |
| JsText.Join | controllers/messageController.js:57 | `join`: the items with the separator between each two. |
| JsText.Contains | routes/listingsRoutes.js:44-45 | True exactly when the word occurs at some position. |
| JsText.Split | middleware/authMiddleware.js:13 | At least one field, and no field contains the separator. |
| JsText.JoinSplit | middleware/authMiddleware.js:13 | Joining the fields with the separator gives back the header. |
| JsText.ReplaceWhitespaceRunsClean | routes/listingsRoutes.js:35 | No whitespace remains after replacing the runs with whitespace-free text. |
| JsText.ReplaceWhitespaceRuns | routes/listingsRoutes.js:35 | `replace(/\s+/g, sub)`: every maximal whitespace run is replaced by `sub`, and every other character is kept. |
| JsText.ReplaceWhitespaceRunsAvoids | routes/listingsRoutes.js:35 | A character absent from the text and the replacement stays absent. |
| JsText.ReplaceWhitespaceRunsSplit | routes/listingsRoutes.js:35 | Each maximal whitespace run, whatever its length, becomes exactly one copy of the replacement, and the text on either side is replaced on its own. |
| JsText.ReplaceWhitespaceRunsIdentity | routes/listingsRoutes.js:35 | A name without whitespace is left unchanged. |
| JsText.ReplaceWhitespaceRunsKeepsText | routes/listingsRoutes.js:35 | Apart from whitespace and underscores, the characters are kept in order. |
| JsText.NatToDecimal | routes/listingsRoutes.js:35 | The timestamp's text is a non-empty run of digits. |
| JsText.LeadingDigits | controllers/communityController.js:126 | The longest run of digits at the start of the text. |
| JsText.ParseIntOfDecimal | controllers/communityController.js:126 | `parseInt` of a number's decimal text is that number. |
| JsText.ParseInt10 | controllers/communityController.js:126 | `parseInt(s, 10)`: leading whitespace, an optional sign, then the longest run of digits. No digits gives NaN (None). |
| NodePath.LastComponent | routes/listingsRoutes.js:33-34 | The component that `extname` and `basename` look at contains no "/". |
| NodePath.ExtName | routes/listingsRoutes.js:33 | The extension is a suffix of the last component. It is empty, or it is one "." followed by no other "." and is not the whole component. A dotted name not starting with "." has one. It contains no "/". |
| NodePath.Stem | routes/listingsRoutes.js:34 | The base name followed by the extension is the last component. It contains no "/", and it is non-empty when there is an extension. |
| NodePath.ExtNameAt | routes/listingsRoutes.js:33-34 | For a name whose last dot is at d, and which does not start with ".", the extension starts at d and the base name is what comes before it. |
| NodePath.ExtNameOfUpperCaseJpg | routes/listingsRoutes.js:33-34 | "photo.JPG" has extension ".JPG" and base name "photo". |
| NodePath.ExtNameOfDotFile | routes/communityRoutes.js:25 | A name like ".png", whose only dot comes first, has no extension, and its base name is the whole name. |

## Left out

- The `$regex` search is modelled as the clauses the query carries. How MongoDB matches a regular expression, and what an unescaped search term does to it, is not modelled.
- `parseFloat` and `Number` are not modelled as parsers. A query price bound is kept as the text it came from. A body price carries both its text and the number `Number()` gives for it (`NumText`), so NaN and Infinity are explicit.
- Query execution is not modelled: sorting, `populate`, `select`, `countDocuments`, the join with users. For `getAllListings` and `getAllDiscussionPosts`, the model gives the query and the formatting of the rows it returns (`Page`, `FormatListings`), not how MongoDB produces the rows.
- Concurrency and the unique-index race, where two registrations of one email can both pass `findOne`, are left out. The store serialises requests.
- fs.unlink: the store records the paths handed to it, but not whether deletion succeeds, because the handler never waits for the outcome.
- bcrypt, jsonwebtoken and the secret are parameters (`hash`, `compare`, `sign`, `verify`). The salt is a parameter. The one case decided without `verify` is a missing or empty token, which jsonwebtoken refuses with a JsonWebTokenError ("jwt must be provided").
- `Date.now()` is a parameter `now`. The timestamps `createdAt` and `updatedAt` become a `createdAt` field, and `updatedAt` is not modelled.
- Routing.Resolve: a fixed segment is compared ignoring the case of ASCII letters only. Express's case-insensitive route regular expression also folds some non-ASCII letters, which the model does not.
- `toLowerCase` is modelled on ASCII letters only. The file filters only test the extension against ASCII words, so the decision is the same for these words.
- Query parameters and body fields that arrive as arrays, and non-string values other than message content, are not modelled. `existingImages` is the one field modelled as an array, because the handler reads it as one.
- ObjectId cast errors are not modelled. An id is a natural number, so a malformed id in the path is just one that is not found.
- A `findOne({ email: undefined })` is taken to match nobody.
- An update with undefined fields is taken to leave those fields unchanged.
- errorMiddleware.js, server.js, routes/userRoutes.js and models/Message.js are not part of this model. The error bodies of thrown errors, and the status an unset `res.status` leaves, belong to the error middleware.
- The database-failure branches are left out: the 500 answers of `createDiscussionPost`, `getCommunityStats`, `getMe` and the login and registration catch blocks other than the ones modelled. A failing database is not part of the model.
- MessageController.SendMessage: the message schema is not part of this model, so whether `save()` fails is a parameter. The populated message in the response is the stored message. The `error` field of the 500 body is left out.
- `parseInt` is modelled for decimal digits after optional whitespace and a sign. Values are unbounded integers, so the precision loss of very long digit strings is not modelled.
- UploadPath: paths are joined POSIX-style, as "uploads/" followed by the filename. On a Windows host `path.join` gives backslashes, which `ImageUrl` then turns into "/".
- ListingStore.Update: the wording of the failure follows Mongoose 6 and later (the cast error names the model "Listing"), and the validator messages are taken in the order of the update's keys.
- Multer's storage step is modelled as the filename it computes. Writing the file, and the `uploads` directory created at start-up, are left out.

## Findings

| source | as written | input that shows it | evidently intended | confidence | as-written member | corrected member |
|---|---|---|---|---|---|---|
| controllers/messageController.js:2 | `Message` is bound to models/Message.js, which exports `{ sendMessage }` rather than a model, so `new Message({...})` raises a TypeError, and the catch answers 500 to every message that passes the checks | "Hi" from user 2 about listing 7, whose seller is user 1 | the message is saved, addressed to the seller, and answered with 201 | not executed | MessageController.SendMessageAsWritten | MessageController.SendMessage |
| models/User.js:16-20 | `minlength: 6` is checked on the document, which holds the 60-character bcrypt hash, so any password is accepted | registration of Ann, ann@farm.co, with password "a" | passwords shorter than 6 characters are refused | not executed | AuthController.UserStore.Register | AuthController.UserStore.RegisterIntended |
| controllers/communityController.js:64 | `req.body.hasOwnProperty("imageUrl")` is called on a body without a prototype, which multer and the `extended: false` URL-encoded parser both produce, so it throws a TypeError before the post is looked up | the author of post 3 changes its title through a multipart form without a new image | the new title and content are saved and answered with 200 | not executed | CommunityController.UpdateOutcomeAsWritten | CommunityController.UpdateOutcome |
