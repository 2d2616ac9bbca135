# Professional network: connection lifecycle, profile update, normalizers

A Dafny model of the server-side logic of a small professional-network web application:

- the **connection-request lifecycle** over the `connections` table: a user requests a
  connection, the receiver accepts or rejects it, and two listings read the table;
- the **profile update** handler, an ordered chain of trim-and-length checks over seven
  optional fields followed by one update of the caller's row;
- the **normalizers** that reshape users, posts and comments sent by the backend, the feed
  page's own copies of two of them, and the **backend URL** builder.

Module layout:

| file | module | what it holds |
|---|---|---|
| `wrappers.dfy` | `Wrappers` | `Option` and `Result` |
| `js_text.dfy` | `JsText` | `trim`, UTF-16 `length`, decimal text of an integer |
| `text_order.dfy` | `TextOrder` | the order of `createdAt` texts (SQLite BINARY collation) |
| `schema.dfy` | `Schema` | `users` and `connections` rows |
| `connection_rules.dfy` | `ConnectionRules` | the request, accept and reject decisions as functions, and what holds over sequences of calls |
| `connection_store.dfy` | `ConnectionStore` | the table as a class whose three methods are the POST handlers |
| `connection_listing.dfy` | `ConnectionListing` | the two GET listings, newest first |
| `profile_update.dfy` | `ProfileUpdate` | the PUT profile handler |
| `js_values.dfy` | `JsValues` | JSON values with `??`, `?.`, `Boolean` and `String` |
| `normalizers.dfy` | `Normalizers` | `toStringId`, `normalizeUser`, `normalizePost`, `normalizeComment` |
| `feed_normalizers.dfy` | `FeedNormalizers` | the feed page's `normalizeUser` and `normalizePost` |
| `backend.dfy` | `Backend` | `normalizeBaseUrl`, base-URL fallback, request URL |

The handlers that change the table are methods of `ConnectionStore.ConnectionTable`, written as
the source's guard chains. Each one is proved equal to a decision function in `ConnectionRules`
(`RequestResult`, `ReviewResult`), and the properties of the lifecycle are lemmas about those
functions. `ProfileUpdate.UserTable.UpdateProfile` fills its `updates` map block by block, as
the handler does. It is proved against the fold `ValidateProfile`, whose behaviour
`ValidateProfileSpec` states.

The authenticated caller id is an input; it stands for the verified JWT. `parseInt` on a body
field is represented by an already-parsed `IdField`. `new URL(...)` not throwing is an
uninterpreted parameter `isUrl`. The clock (`new Date().toISOString()`) is a `now` parameter.
The environment variables are parameters too.

The code does not keep at most one non-rejected row per pair of users, and the model follows
the code. The duplicate check reads only
the first row of the pair, in table order (`.limit(1)` with no `ORDER BY`). While that row is
rejected, every new request for the pair is let through.
`ConnectionRules.RejectedFirstRowLetsDuplicatesIn` shows two such requests leaving two more
pending rows for the same pair.

## Model

| member | source | states |
|---|---|---|
| `ConnectionRules.FirstBetween` | src/app/api/connections/request/route.ts:80-94 | the row the duplicate check reads is the first in table order that links the two users in either direction; none exactly when no row links them |
| `ConnectionRules.FirstRowHasIff` | src/app/api/connections/request/route.ts:80-94 | the status the check reads is `s` exactly when some row of the pair has `s` and no earlier row links the pair |
| `ConnectionRules.RequestResult` | src/app/api/connections/request/route.ts:42-124 | each error code holds exactly under its guard in source order (falsy id, unparsable id, self before existence, unknown target, first row pending, first row accepted); success exactly when no row links the pair or the first is rejected, and then the new row is pending from caller to target |
| `ConnectionRules.FindById` | src/app/api/connections/accept/route.ts:56-60 | the row found by id is the first with that id; none exactly when no row has it |
| `ConnectionRules.ReviewResult` | src/app/api/connections/accept/route.ts:40-116 | missing and unparsable ids and unknown ids fail with their codes; for the row with the id, a caller other than the receiver is refused before the status is read, a non-pending row is refused, otherwise the row comes back with only its status changed |
| `ConnectionRules.SetStatus` | src/app/api/connections/accept/route.ts:94-98 | the update changes the status of the rows with that id and leaves every other row as it was |
| `ConnectionRules.RequestKeepsValid` | src/app/api/connections/request/route.ts:117-124 | a request keeps row ids positive, increasing and below the next id; on success the table is the old one plus the new row, which takes the next id |
| `ConnectionRules.ReviewKeepsValid` | src/app/api/connections/reject/route.ts:94-98 | accept and reject keep the ids valid and change only the addressed row, and on it only its status, from pending to the decided one |
| `ConnectionRules.FirstBetweenAppend` | src/app/api/connections/request/route.ts:80-94 | appending a row does not move the first row of a pair that already had one |
| `ConnectionRules.PendingBlockIsSymmetric` | src/app/api/connections/request/route.ts:82-104 | after a asks b (no earlier row for the pair), b asking a fails with CONNECTION_PENDING |
| `ConnectionRules.FindByIdAfterSetStatus` | src/app/api/connections/accept/route.ts:56-60 | after a status update, an id is found at the same position as before |
| `ConnectionRules.ReviewIsFinal` | src/app/api/connections/accept/route.ts:83-91 | after a successful accept or reject, no later accept or reject of that id succeeds, and the receiver gets the not-pending code |
| `ConnectionRules.FirstBetweenAfterSetStatus` | src/app/api/connections/reject/route.ts:94-98 | a status update leaves the first row of every pair where it was |
| `ConnectionRules.FindNewRow` | src/app/api/connections/request/route.ts:117-124 | the appended row is the one found under its new id |
| `ConnectionRules.RejectReopensPair` | src/app/api/connections/request/route.ts:80-124 | after a request and its rejection, a new request succeeds in either direction |
| `ConnectionRules.RejectedFirstRowLetsDuplicatesIn` | src/app/api/connections/request/route.ts:80-124 | while the first row of a pair is rejected, two successive requests both succeed and add two pending rows for the pair |
| `ConnectionStore.ConnectionTable.constructor` | src/db/schema.ts:47-53 | the table starts with the given rows, next id and user ids |
| `ConnectionStore.ConnectionTable.Request` | src/app/api/connections/request/route.ts:42-135 | the result is the request decision on the old table; the row is appended only on success, the next id advances only then, the user ids are untouched |
| `ConnectionStore.ConnectionTable.Accept` | src/app/api/connections/accept/route.ts:40-116 | the result is the accept decision on the old table; on success only the row with that id is set to accepted, on any error the table is unchanged |
| `ConnectionStore.ConnectionTable.Reject` | src/app/api/connections/reject/route.ts:40-110 | the result is the reject decision on the old table; on success only the row with that id is set to rejected, on any error the table is unchanged |
| `ConnectionListing.InsertByDate` | src/app/api/connections/route.ts:48 | inserting a row into a newest-first list gives a newest-first permutation of the list plus the row |
| `ConnectionListing.SortNewestFirst` | src/app/api/connections/route.ts:48 | the ordering is a permutation of its input, ordered by createdAt descending |
| `ConnectionListing.SelectAccepted` | src/app/api/connections/route.ts:36-47 | a row is selected exactly when it is in the table, accepted, and has the caller on one side, and as many times as the table holds it |
| `ConnectionListing.OtherParty` | src/app/api/connections/route.ts:54-57 | the other user is one of the row's two users and, when the caller is on the row, not the caller (unless the row links a user to themself) |
| `ConnectionListing.JoinOther` | src/app/api/connections/route.ts:51-88 | each entry carries its row and the profile of the row's other user, who exists; each row whose other user exists is kept exactly as often as it occurs, and every other row is dropped; with users keyed by id, the profile's id is the other user's |
| `ConnectionListing.JoinOtherKeepsOrder` | src/app/api/connections/route.ts:51-88 | the map and filter keep the newest-first order |
| `ConnectionListing.ListAccepted` | src/app/api/connections/route.ts:36-95 | `count` is the list length; every entry is an accepted row of the caller copied unchanged, with the existing other user's profile; every such row with an existing other user is listed, exactly as often as the table holds it; with users keyed by id, each profile is the other user's own; newest first |
| `ConnectionListing.SelectPending` | src/app/api/connections/requests/route.ts:52-57 | a row is selected exactly when the caller is its receiver and it is pending, and as many times as the table holds it, so requests the caller sent never appear |
| `ConnectionListing.JoinRequester` | src/app/api/connections/requests/route.ts:40-51 | the left join keeps every row in order, each with the profile of its requester when that user exists; with users keyed by id, that profile's id is the requester's |
| `ConnectionListing.ListPendingReceived` | src/app/api/connections/requests/route.ts:33-63 | `count` is the list length; the listed rows are a permutation of the caller's pending received rows; the requester is present exactly when the requesting user exists and is then that user's profile, whose id is the requester's when users are keyed by id; newest first |
| `TextOrder.TextLeTotal` | src/app/api/connections/route.ts:48 | any two createdAt texts are comparable |
| `TextOrder.TextLeTransitive` | src/app/api/connections/route.ts:48 | the createdAt order is transitive |
| `TextOrder.TextLeAntisymmetric` | src/app/api/connections/route.ts:48 | texts ordered both ways are equal |
| `TextOrder.TextLeReflexive` | src/app/api/connections/route.ts:48 | every text is at or before itself |
| `JsText.Trim` | src/app/api/users/profile/route.ts:69 | the result is a contiguous slice of the input with only white space cut on either side, and neither starts nor ends with white space |
| `JsText.TrimEmptyIffAllSpace` | src/app/api/users/profile/route.ts:69-70 | a text trims to "" exactly when all of it is white space |
| `JsText.TrimIdempotent` | src/app/api/users/profile/route.ts:69 | trimming a trimmed text changes nothing |
| `JsText.Utf16Length` | src/app/api/users/profile/route.ts:82 | the length lies between the character count and twice it, and is 0 only for "" |
| `JsText.Utf16LengthAppend` | src/app/api/users/profile/route.ts:82 | the length of a concatenation is the sum of the lengths |
| `JsText.NatToStringRoundTrip` | src/lib/normalizers.ts:3 | the decimal text of a number reads back as that number |
| `JsText.IntToString` | src/lib/normalizers.ts:3 | the text is non-empty and starts with '-' exactly for negative numbers, with a digit otherwise |
| `JsText.IntToStringInjective` | src/lib/normalizers.ts:3 | distinct numbers have distinct texts |
| `ProfileUpdate.CheckText` | src/app/api/users/profile/route.ts:68-155 | a passing field stores its trimmed text; a name passes exactly when it holds a non-space character; an avatar passes exactly when it trims to "" or is a URL, and an all-space avatar is stored as ""; the other fields pass exactly when their trimmed UTF-16 length is within 120, 2000 or 100; a failure carries the field's own code |
| `ProfileUpdate.Step` | src/app/api/users/profile/route.ts:68-77 | one block succeeds exactly when its field passes; an absent key leaves the updates as they were; a present one records its trimmed text; a failure carries the field's code, 500 for a non-string |
| `ProfileUpdate.ValidateProfile` | src/app/api/users/profile/route.ts:54-61 | NO_FIELDS_PROVIDED exactly when no updatable key is present; the field blocks never produce that code |
| `ProfileUpdate.ValidateFromSpec` | src/app/api/users/profile/route.ts:65-155 | the blocks over distinct fields succeed exactly when every field passes, and then record the trimmed text of each present field and nothing else; otherwise the result is the code of the first failing field |
| `ProfileUpdate.ValidateProfileSpec` | src/app/api/users/profile/route.ts:54-155 | NO_FIELDS_PROVIDED exactly when no updatable key is present; success exactly when some is and every present field passes, the updates holding exactly the present fields' trimmed texts; any other failure is the code of the first failing field in the order name, headline, bio, avatar, location, company, position |
| `ProfileUpdate.ValidateFromIgnoresUnknownKey` | src/app/api/users/profile/route.ts:54-55 | a key outside the seven changes nothing in the field blocks |
| `ProfileUpdate.UnknownKeyIgnored` | src/app/api/users/profile/route.ts:54-55 | a key outside the seven changes nothing in the outcome |
| `ProfileUpdate.HeadlineLimitAccepts` | src/app/api/users/profile/route.ts:80-89 | a headline of exactly 120 code units once trimmed is stored |
| `ProfileUpdate.HeadlineLimitRefuses` | src/app/api/users/profile/route.ts:80-89 | a headline of 121 code units once trimmed fails with INVALID_HEADLINE |
| `ProfileUpdate.Apply` | src/app/api/users/profile/route.ts:158-161 | the updated columns take their new values, every other column (id, email, password, createdAt included) is kept |
| `ProfileUpdate.UserTable.constructor` | src/db/schema.ts:4-16 | the table starts with the given rows, each under its own id |
| `ProfileUpdate.UserTable.UpdateProfile` | src/app/api/users/profile/route.ts:54-172 | a validation failure returns its code, an unknown caller USER_NOT_FOUND, and both leave the table unchanged; otherwise only the caller's row changes, by the validated updates, and the response is that row without its password |
| `JsValues.Coalesce` | src/lib/normalizers.ts:7 | `a ?? b` is `a` unless that is null or undefined, else `b`; it is nullish only when both are |
| `JsValues.Truthy` | src/lib/normalizers.ts:41 | null and undefined are falsy; a boolean is itself; a number is truthy exactly when non-zero, a string exactly when non-empty; every array and object is truthy |
| `JsValues.Default` | src/lib/normalizers.ts:8 | `a ?? d` is `a` unless that is null or undefined, else `d`; a non-null default makes the result non-null |
| `JsValues.Get` | src/lib/normalizers.ts:7 | property access on null or undefined is undefined; on an object it is the own property or undefined; `length` of an array is its element count and of a string its UTF-16 length, other keys undefined; booleans and numbers give undefined |
| `JsValues.Put` | src/lib/normalizers.ts:21-26 | an object literal gives back each property it was built with and nothing else |
| `JsValues.ToStr` | src/lib/normalizers.ts:3 | `String(v)`: "null", "true"/"false", a number's decimal text (non-empty, '-' exactly when negative), a string itself, an array's elements joined by "," with null as "", and "[object Object]" |
| `JsValues.ArrayText` | src/lib/normalizers.ts:3 | `String` of an array: "" for the empty array; else the first element's text (null as ""), then "," and the rest's text when there is a rest |
| `JsValues.ToStringId` | src/lib/normalizers.ts:1-4 | null and undefined become "", any other value its `String` text |
| `JsValues.ToStringIdEmpty` | src/lib/normalizers.ts:1-4 | among null, undefined, booleans, numbers and strings, the id is "" exactly for null, undefined and "" |
| `JsValues.NumberIdMatchesTextId` | src/lib/normalizers.ts:1-4 | a numeric id and the same id sent as text normalize alike, and never to "" |
| `Normalizers.NormalizeUser` | src/lib/normalizers.ts:6-17 | `id` wins over `_id`; name is `name`, else `username`, else ""; email is `email`, else ""; headline and avatar take their own key before `userHeadline`/`userAvatar`, else null; bio, location, company and position are the given value, else null; createdAt is `createdAt`, else `updatedAt`, else null |
| `Normalizers.RecordId` | src/lib/normalizers.ts:7 | the id is the text of `id` when given, else of `_id`, else "" |
| `Normalizers.NormalizeUserIdempotent` | src/lib/normalizers.ts:6-17 | normalizing an already normalized user changes nothing |
| `Normalizers.FlatAuthor` | src/lib/normalizers.ts:21-26 | the object literal has only the keys id, name, headline and avatar, which read back as userId, username and the two given flat keys |
| `Normalizers.AuthorOf` | src/lib/normalizers.ts:20-27 | the author is the nested user normalized when present, else the flat object literal normalized |
| `Normalizers.PostUserId` | src/lib/normalizers.ts:31 | the top-level `userId` when given, else the nested user's `_id`, else its `id`, else "" |
| `Normalizers.FlatAuthorUser` | src/lib/normalizers.ts:20-27 | the user built from the flat fields reads each of them and nothing else |
| `Normalizers.ArrayLengthOrZero` | src/lib/normalizers.ts:36 | an array gives its element count, anything else 0 |
| `Normalizers.NormalizePost` | src/lib/normalizers.ts:19-44 | id is `id`, else `_id`; userId is the top-level `userId`, else the nested `_id`, else the nested `id`; content is given, else ""; `imageUrl` before `imageURL`, else null; an explicit count is kept, even 0; else an array's length; else 0; `isLiked` is the truthiness of the raw field; createdAt is given, else `now`; a nested user, when present, is the author, else the flat fields |
| `Normalizers.PostAuthorFromFlatFields` | src/lib/normalizers.ts:20-27 | without a nested user, the author comes from userId, username, userHeadline and userAvatar, with "" and null defaults |
| `Normalizers.PostUserIdMatchesAuthorIff` | src/lib/normalizers.ts:20-31 | the post's userId equals its author's id exactly when there is no nested user, or the top-level `userId` has the nested author's id as text, or with no top-level `userId` the nested user lacks `id` or `_id` or gives both the same text |
| `Normalizers.PostUserIdCanDisagree` | src/lib/normalizers.ts:31 | with `{id: 1, _id: 2}` as the nested user and no top-level userId, the two ids differ |
| `Normalizers.TopLevelUserIdCanDisagree` | src/lib/normalizers.ts:20-31 | with top-level `userId: 1` and `{id: 2}` as the nested user, the two ids differ |
| `Normalizers.NormalizeComment` | src/lib/normalizers.ts:46-64 | id is `id`, else `_id`; the comment's userId is its author's id; an explicit postId argument wins, then `postId`, then `post._id`; content falls back to text and then ""; createdAt is given, else `now`; a nested user, when present, is the author, else the flat fields |
| `Normalizers.CommentAuthorFromFlatFields` | src/lib/normalizers.ts:47-54 | without a nested user, the author comes from userId, username, headline and avatar |
| `FeedNormalizers.ToText` | src/app/feed/page.tsx:39 | `?.toString()` is undefined exactly on null or undefined |
| `FeedNormalizers.NormalizeUser` | src/app/feed/page.tsx:38-44 | the id is the text of `id`, else ""; name and email are the given value, else ""; headline and avatar the given value, else null (no alternative keys) |
| `FeedNormalizers.NormalizePost` | src/app/feed/page.tsx:46-61 | id is the text of `id`, else ""; userId is the text of the top-level `userId`, else of `user.id`, and the author id the reverse; content given, else ""; `imageUrl` before `imageURL`, else null; each count is the explicit one, else the raw field's `length`, else 0; createdAt given, else `now`; `isLiked` is the truthiness of the raw field; the author name is `user.name`, else `username`, else "User"; headline and avatar take the nested value before the flat one, else null |
| `FeedNormalizers.PostUserIdMatchesAuthorIff` | src/app/feed/page.tsx:48-56 | userId and the author id agree exactly when at most one of top-level userId and user.id is given or both have the same text |
| `FeedNormalizers.UserAgreesWithShared` | src/app/feed/page.tsx:38-44 | where no alternative key is present, the feed copy of normalizeUser gives the shared one's fields |
| `FeedNormalizers.AuthorNameDefaultsDiffer` | src/app/feed/page.tsx:57 | an author with no name anywhere is "User" on the feed page and "" in the shared normalizer |
| `FeedNormalizers.LikesCountAgreesIff` | src/app/feed/page.tsx:51 | without an explicit count, the feed's likesCount agrees with the shared one exactly when `likes` is an array or has no nonzero `length` |
| `Backend.NormalizeBaseUrl` | src/lib/backend.ts:1-4 | unset or "" gives nothing; otherwise exactly one trailing "/" is removed and any other input is kept |
| `Backend.TrailingSlashIgnored` | src/lib/backend.ts:3 | "x/" and "x" normalize alike |
| `Backend.OnlyOneSlashRemoved` | src/lib/backend.ts:3 | "x//" normalizes to "x/" |
| `Backend.BaseUrl` | src/lib/backend.ts:6-9 | BACKEND_URL wins when set and non-empty, then NEXT_PUBLIC_BACKEND_URL; the result is the default exactly when the chain falls through or a used variable is the default with at most one trailing "/" |
| `Backend.EmptyBackendUrlIsUnset` | src/lib/backend.ts:6-9 | an empty BACKEND_URL counts as unset |
| `Backend.RequestUrl` | src/lib/backend.ts:11-14 | the URL is the base, one "/", then the path without a leading "/" of its own |
| `Backend.LeadingSlashOptional` | src/lib/backend.ts:12 | a path without a leading slash gives the same URL as with one |

## Left out

- Authentication: JWT verification and the 401 answers are not modelled; the caller id is an input.
- Request parsing: `request.json()` is taken as parsed, and `parseInt` as an already-parsed `IdField`. Its leniency (`"12abc"` gives 12) is outside the model.
- `new URL(...)` is the uninterpreted predicate `isUrl`; WHATWG URL parsing is not modelled.
- The clock and the environment are parameters: `now` for `new Date().toISOString()`, and the two optional variables for the base URL.
- The 500 answers of the connection handlers are not modelled. They come from database errors. They also come from accept's UPDATE_FAILED and from reject's read of an empty update result, both unreachable when each handler runs as one atomic step.
- Concurrency: each handler is one atomic sequential step, so the races between lookup and insert or update are not modelled.
- ORDER BY createdAt DESC leaves rows with equal timestamps in an unspecified order. The model keeps table order among them (a stable insertion sort).
- JS numbers are integers in the model: NaN, infinities and fractions are not modelled.
- JsValues.ToStr: prints every integer in plain decimal, while `String` in JavaScript writes 1e21 and beyond in exponent form ("1e+21"). Integers past 2^53 lose precision when JSON is parsed, so ids that large are not modelled faithfully by `toStringId`.
- Strings are sequences of Unicode scalar values; lone surrogates cannot be written in the model.
- Array index properties (`a[0]`) and the properties of numbers and booleans are not modelled by `JsValues.Get`; the normalizers never read them.
- `connections.status` is an enum of the three values the handlers write; other texts in the column are not modelled.
- `fetch` in `backendApiFetch` is I/O; only the URL it is given is modelled.
- The React pages, the PostCard optimistic like, the posts, likes, comments and auth proxy routes, the logout route, the seeds, the Mongoose post schema and the connection-status lookup are not part of this model. They are UI, forward to a backend whose code is not part of this model, or are fixture data.
